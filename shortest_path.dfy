/**
 * `bfs` and `all_shortest_paths` (src/algorithm/shortest_path.rs): the
 * breadth-first and Dijkstra searches from one source over a generic
 * `UndirectedGraph`.  Both are proved against `Walks`: bfs finds exactly
 * the reachable vertices and the length of a shortest walk to each.
 */
module ShortestPaths {
  import opened Wrappers
  import opened Costs
  import Edges
  import Graphs
  import Misc
  import opened Walks

  /** The vertices waiting in a queue of (vertex, distance) pairs. */
  function Queued(q: seq<(nat, nat)>): set<nat>
  {
    set i | 0 <= i < |q| :: q[i].0
  }

  /** How many vertices are not done yet. */
  function Undone(done: seq<bool>): nat
  {
    if |done| == 0 then 0
    else Undone(done[..|done| - 1]) + (if done[|done| - 1] then 0 else 1)
  }

  /** Marking one vertex done leaves one fewer. */
  lemma {:induction false} UndoneUpdate(done: seq<bool>, v: nat)
    requires v < |done| && !done[v]
    ensures Undone(done[v := true]) == Undone(done) - 1
  {
    var last := |done| - 1;
    if v < last {
      assert done[v := true][..last] == done[..last][v := true];
      UndoneUpdate(done[..last], v);
    } else {
      assert done[v := true][..last] == done[..last];
    }
  }

  /** Removing the entry at k keeps every other entry and adds none. */
  lemma RemoveAt<T>(xs: seq<T>, k: nat)
    requires k < |xs|
    ensures forall x :: x in xs && x != xs[k] ==> x in xs[..k] + xs[k + 1..]
    ensures forall x :: x in xs[..k] + xs[k + 1..] ==> x in xs
  {
    var rest := xs[..k] + xs[k + 1..];
    forall x | x in xs && x != xs[k]
      ensures x in rest
    {
      var i :| 0 <= i < |xs| && xs[i] == x;
      if i < k {
        assert rest[i] == x;
      } else {
        assert rest[i - 1] == x;
      }
    }
    forall x | x in rest
      ensures x in xs
    {
      var i :| 0 <= i < |rest| && rest[i] == x;
      if i < k {
        assert rest[i] == xs[i];
      } else {
        assert rest[i] == xs[i + 1];
      }
    }
  }

  /**
   * The queue of a search at `level`: every entry carries its vertex's
   * distance, distances run from level to level + 1 in order, and no
   * vertex waits twice.
   */
  ghost predicate QueueFits(dist: seq<Cost>, q: seq<(nat, nat)>, level: nat)
  {
    && (forall i :: 0 <= i < |q| ==>
          q[i].0 < |dist| && dist[q[i].0] == Finite(q[i].1) && level <= q[i].1 <= level + 1)
    && (forall i, j :: 0 <= i < j < |q| ==> q[i].1 <= q[j].1 && q[i].0 != q[j].0)
  }

  /** A vertex found and no longer queued: its list has been scanned, or is being scanned. */
  predicate Settled(dist: seq<Cost>, q: seq<(nat, nat)>, v: nat)
    requires v < |dist|
  {
    dist[v].Finite? && v !in Queued(q)
  }

  /** Every step out of v reaches a found vertex at most one further than v. */
  ghost predicate Expanded(adj: seq<seq<nat>>, dist: seq<Cost>, v: nat, upto: nat)
    requires v < |adj| == |dist| && upto <= |adj[v]|
  {
    dist[v].Finite? &&
    forall j :: 0 <= j < upto ==>
      adj[v][j] < |dist| && dist[adj[v][j]].Finite? && dist[adj[v][j]].n <= dist[v].n + 1
  }

  /** What every state of bfs keeps: every distance is a walk length, and the queue fits. */
  ghost predicate Sound(adj: seq<seq<nat>>, s: nat, dist: seq<Cost>, q: seq<(nat, nat)>, level: nat)
  {
    && |dist| == |adj| && s < |adj| && dist[s] == Finite(0) && Closed(adj)
    && (forall v :: 0 <= v < |adj| && dist[v].Finite? ==> Walk(adj, s, v, dist[v].n))
    && QueueFits(dist, q, level)
  }

  /** The state of bfs between two pops: every settled vertex is expanded and at most level away. */
  ghost predicate Searching(adj: seq<seq<nat>>, s: nat, dist: seq<Cost>, q: seq<(nat, nat)>, level: nat)
  {
    && Sound(adj, s, dist, q, level)
    && (forall v :: 0 <= v < |adj| && Settled(dist, q, v) ==>
          dist[v].n <= level && Expanded(adj, dist, v, |adj[v]|))
  }

  /** The state of bfs while the list of u, found at distance d, is scanned up to entry i. */
  ghost predicate Scanning(adj: seq<seq<nat>>, s: nat, dist: seq<Cost>, q: seq<(nat, nat)>, u: nat, d: nat, i: nat)
  {
    && Sound(adj, s, dist, q, d)
    && u < |adj| && i <= |adj[u]| && dist[u] == Finite(d) && u !in Queued(q)
    && Expanded(adj, dist, u, i)
    && (forall v :: 0 <= v < |adj| && v != u && Settled(dist, q, v) ==>
          dist[v].n <= d && Expanded(adj, dist, v, |adj[v]|))
  }

  /**
   * Between pops, a walk of k steps to v with k at most the level (or any
   * k once the queue is empty) means v was found at distance at most k.
   */
  lemma {:induction false} Found(adj: seq<seq<nat>>, s: nat, dist: seq<Cost>, q: seq<(nat, nat)>, level: nat, v: nat, k: nat)
    requires Searching(adj, s, dist, q, level)
    requires v < |adj| && Walk(adj, s, v, k) && (q == [] || k <= level)
    ensures dist[v].Finite? && dist[v].n <= k
    decreases k
  {
    if k > 0 {
      var u :| 0 <= u < |adj| && v in adj[u] && Walk(adj, s, u, k - 1);
      Found(adj, s, dist, q, level, u, k - 1);
      var j :| 0 <= j < |adj[u]| && adj[u][j] == v;
    }
  }

  /** Once the queue is empty, the found vertices are the reachable ones, each at its shortest distance. */
  lemma Finished(adj: seq<seq<nat>>, s: nat, dist: seq<Cost>, level: nat)
    requires Searching(adj, s, dist, [], level)
    ensures forall v :: 0 <= v < |adj| ==> (dist[v].Finite? <==> Reachable(adj, s, v))
    ensures forall v :: 0 <= v < |adj| && dist[v].Finite? ==> Shortest(adj, s, v, dist[v].n)
  {
    forall v | 0 <= v < |adj|
      ensures dist[v].Finite? <==> Reachable(adj, s, v)
      ensures dist[v].Finite? ==> Shortest(adj, s, v, dist[v].n)
    {
      if Reachable(adj, s, v) {
        var k: nat :| Walk(adj, s, v, k);
        Found(adj, s, dist, [], level, v, k);
      }
      if dist[v].Finite? {
        forall j: nat | j < dist[v].n
          ensures !Walk(adj, s, v, j)
        {
          if Walk(adj, s, v, j) {
            Found(adj, s, dist, [], level, v, j);
          }
        }
      }
    }
  }

  /**
   * `bfs(graph, s)`: the distance of every vertex from s in steps, Infinite
   * for the vertices no walk reaches.
   */
  method Bfs<E(==,!new)>(g: Graphs.UndirectedGraph<E>, s: nat) returns (dist: seq<Cost>)
    requires g.Valid() && s < g.n && Closed(Targets(g.ops, g.adj))
    ensures |dist| == g.n
    ensures forall v :: 0 <= v < g.n ==> (dist[v].Finite? <==> Reachable(Targets(g.ops, g.adj), s, v))
    ensures forall v :: 0 <= v < g.n && dist[v].Finite? ==> Shortest(Targets(g.ops, g.adj), s, v, dist[v].n)
  {
    ghost var adj := Targets(g.ops, g.adj);
    dist := Misc.Repeat(g.n, Infinite);
    var q: seq<(nat, nat)> := [(s, 0)];
    dist := dist[s := Finite(0)];
    ghost var level := 0;
    Start(adj, s, dist);
    while q != []
      invariant Searching(adj, s, dist, q, level)
      decreases Unfound(dist), |q|
    {
      PopSettles(adj, s, dist, q, level);
      var (u, d) := q[0];
      q := q[1..];
      level := d;
      dist, q := ScanList(g, adj, s, dist, q, u, d);
    }
    Finished(adj, s, dist, level);
  }

  /** The `for e in &graph[&u]` loop of bfs: every head still Infinite is found at d + 1 and queued. */
  method ScanList<E(==,!new)>(g: Graphs.UndirectedGraph<E>, ghost adj: seq<seq<nat>>, s: nat, dist0: seq<Cost>, q0: seq<(nat, nat)>, u: nat, d: nat)
      returns (dist: seq<Cost>, q: seq<(nat, nat)>)
    requires g.Valid() && adj == Targets(g.ops, g.adj)
    requires Scanning(adj, s, dist0, q0, u, d, 0)
    ensures Searching(adj, s, dist, q, d)
    ensures Unfound(dist) + |q| == Unfound(dist0) + |q0| && |q| >= |q0|
  {
    dist, q := dist0, q0;
    ghost var qs := Unfound(dist0) + |q0|;
    var es := g.adj[u];
    for i := 0 to |es|
      invariant Scanning(adj, s, dist, q, u, d, i)
      invariant Unfound(dist) + |q| == qs && |q| >= |q0|
    {
      dist, q := ScanEntry(g, adj, s, dist, q, u, d, i);
    }
  }

  /** One entry of u's list: its head, if still Infinite, is found at d + 1 and queued. */
  method ScanEntry<E(==,!new)>(g: Graphs.UndirectedGraph<E>, ghost adj: seq<seq<nat>>, s: nat, dist0: seq<Cost>, q0: seq<(nat, nat)>, u: nat, d: nat, i: nat)
      returns (dist: seq<Cost>, q: seq<(nat, nat)>)
    requires g.Valid() && adj == Targets(g.ops, g.adj)
    requires Scanning(adj, s, dist0, q0, u, d, i) && i < |g.adj[u]|
    ensures Scanning(adj, s, dist, q, u, d, i + 1)
    ensures Unfound(dist) + |q| == Unfound(dist0) + |q0| && |q| >= |q0|
  {
    dist, q := dist0, q0;
    var v := g.ops.to(g.adj[u][i]);
    assert v == adj[u][i];
    if dist[v].Infinite? {
      UnfoundUpdate(dist, v, Finite(d + 1));
      Discover(adj, s, dist, q, u, d, i);
      dist := dist[v := Finite(d + 1)];
      q := q + [(v, d + 1)];
    }
  }

  /** The search starts with s found at distance 0 and queued. */
  lemma Start(adj: seq<seq<nat>>, s: nat, dist: seq<Cost>)
    requires Closed(adj) && s < |adj| == |dist| && dist == Misc.Repeat(|adj|, Infinite)[s := Finite(0)]
    ensures Searching(adj, s, dist, [(s, 0)], 0)
  {
    assert [(s, 0)][0].0 == s;
  }

  /** Popping the head (u, d) of the queue of a search starts the scan of u's list at level d. */
  lemma PopSettles(adj: seq<seq<nat>>, s: nat, dist: seq<Cost>, q: seq<(nat, nat)>, level0: nat)
    requires q != [] && Searching(adj, s, dist, q, level0)
    ensures Scanning(adj, s, dist, q[1..], q[0].0, q[0].1, 0)
  {
  }

  /** Finding the head v of entry i of u's list at distance d + 1 keeps the scan going. */
  lemma Discover(adj: seq<seq<nat>>, s: nat, dist: seq<Cost>, q: seq<(nat, nat)>, u: nat, d: nat, i: nat)
    requires Scanning(adj, s, dist, q, u, d, i) && i < |adj[u]| && dist[adj[u][i]].Infinite?
    ensures Scanning(adj, s, dist[adj[u][i] := Finite(d + 1)], q + [(adj[u][i], d + 1)], u, d, i + 1)
  {
    DiscoverSound(adj, s, dist, q, u, d, i);
    DiscoverScanned(adj, s, dist, q, u, d, i);
    DiscoverSettled(adj, s, dist, q, u, d, i);
  }

  /** The `Sound` part of `Discover`: the new distance is a walk length and the new entry fits the queue. */
  lemma DiscoverSound(adj: seq<seq<nat>>, s: nat, dist: seq<Cost>, q: seq<(nat, nat)>, u: nat, d: nat, i: nat)
    requires Scanning(adj, s, dist, q, u, d, i) && i < |adj[u]| && dist[adj[u][i]].Infinite?
    ensures Sound(adj, s, dist[adj[u][i] := Finite(d + 1)], q + [(adj[u][i], d + 1)], d)
  {
    var v := adj[u][i];
    var dist' := dist[v := Finite(d + 1)];
    var q' := q + [(v, d + 1)];
    WalkStep(adj, s, u, i, d);
    forall w | 0 <= w < |adj| && dist'[w].Finite?
      ensures Walk(adj, s, w, dist'[w].n)
    {
      if w != v {
        assert dist'[w] == dist[w];
      }
    }
    forall k | 0 <= k < |q'|
      ensures q'[k].0 < |dist'| && dist'[q'[k].0] == Finite(q'[k].1) && d <= q'[k].1 <= d + 1
    {
      if k < |q| {
        assert q'[k] == q[k];
      }
    }
    forall k, l | 0 <= k < l < |q'|
      ensures q'[k].1 <= q'[l].1 && q'[k].0 != q'[l].0
    {
      assert q'[k] == q[k];
      if l < |q| {
        assert q'[l] == q[l];
      }
    }
  }

  /** `Discover` for u itself: still found at d, not queued, and expanded one entry further. */
  lemma DiscoverScanned(adj: seq<seq<nat>>, s: nat, dist: seq<Cost>, q: seq<(nat, nat)>, u: nat, d: nat, i: nat)
    requires Scanning(adj, s, dist, q, u, d, i) && i < |adj[u]| && dist[adj[u][i]].Infinite?
    ensures var dist' := dist[adj[u][i] := Finite(d + 1)];
      dist'[u] == Finite(d) && u !in Queued(q + [(adj[u][i], d + 1)]) && Expanded(adj, dist', u, i + 1)
  {
    var v := adj[u][i];
    QueuedSnoc(q, (v, d + 1));
  }

  /** `Discover` for every other settled vertex: nothing about it changes. */
  lemma DiscoverSettled(adj: seq<seq<nat>>, s: nat, dist: seq<Cost>, q: seq<(nat, nat)>, u: nat, d: nat, i: nat)
    requires Scanning(adj, s, dist, q, u, d, i) && i < |adj[u]| && dist[adj[u][i]].Infinite?
    ensures var dist' := dist[adj[u][i] := Finite(d + 1)];
      forall v :: 0 <= v < |adj| && v != u && Settled(dist', q + [(adj[u][i], d + 1)], v) ==>
        dist'[v].n <= d && Expanded(adj, dist', v, |adj[v]|)
  {
    var x := adj[u][i];
    var dist' := dist[x := Finite(d + 1)];
    var q' := q + [(x, d + 1)];
    QueuedSnoc(q, (x, d + 1));
    forall v | 0 <= v < |adj| && v != u && Settled(dist', q', v)
      ensures dist'[v].n <= d && Expanded(adj, dist', v, |adj[v]|)
    {
      assert v != x;
      assert Settled(dist, q, v);
    }
  }

  /** Queueing x adds its vertex to the queued ones. */
  lemma QueuedSnoc(q: seq<(nat, nat)>, x: (nat, nat))
    ensures Queued(q + [x]) == Queued(q) + {x.0}
  {
    var q' := q + [x];
    forall y | y in Queued(q')
      ensures y in Queued(q) + {x.0}
    {
      var k :| 0 <= k < |q'| && q'[k].0 == y;
      if k < |q| {
        assert q[k].0 == y;
      }
    }
    forall y | y in Queued(q) + {x.0}
      ensures y in Queued(q')
    {
      if y in Queued(q) {
        var k :| 0 <= k < |q| && q[k].0 == y;
        assert q'[k].0 == y;
      } else {
        assert q'[|q|].0 == y;
      }
    }
  }

  /*
   * `all_shortest_paths`: Dijkstra's search with a binary heap and lazy
   * deletion.  The heap is modelled as the sequence of its (d, u) entries;
   * `pop` takes the entry with the least d.
   */

  /**
   * `BinaryHeap::pop` on `(Reverse(Order(d)), u)` entries: the position of
   * the entry with the least d, and among those the greatest u.
   */
  method PopMin(pq: seq<(nat, nat)>) returns (k: nat)
    requires pq != []
    ensures k < |pq|
    ensures forall i :: 0 <= i < |pq| ==> pq[k].0 < pq[i].0 || (pq[k].0 == pq[i].0 && pq[i].1 <= pq[k].1)
  {
    k := 0;
    for i := 1 to |pq|
      invariant k < i
      invariant forall j :: 0 <= j < i ==> pq[k].0 < pq[j].0 || (pq[k].0 == pq[j].0 && pq[j].1 <= pq[k].1)
    {
      if pq[i].0 < pq[k].0 || (pq[i].0 == pq[k].0 && pq[i].1 > pq[k].1) {
        k := i;
      }
    }
  }

  /** Every step out of v reaches a found vertex no heavier than v's distance plus the step. */
  ghost predicate Relaxed(wadj: seq<seq<(nat, nat)>>, dist: seq<Cost>, v: nat, upto: nat)
    requires v < |wadj| == |dist| && upto <= |wadj[v]|
  {
    dist[v].Finite? &&
    forall j :: 0 <= j < upto ==>
      wadj[v][j].0 < |dist| && dist[wadj[v][j].0].Finite? && dist[wadj[v][j].0].n <= dist[v].n + wadj[v][j].1
  }

  /**
   * What every state of Dijkstra's search keeps: distances are walk
   * weights, every heap entry is at least its vertex's distance and the
   * level, every found vertex not done waits in the heap with its
   * distance, and done vertices lie at most at the level.
   */
  ghost predicate Weighing(wadj: seq<seq<(nat, nat)>>, s: nat, dist: seq<Cost>, done: seq<bool>, pq: seq<(nat, nat)>, level: nat)
  {
    && |dist| == |wadj| == |done| && s < |wadj| && dist[s] == Finite(0) && ClosedWeighted(wadj)
    && (forall v :: 0 <= v < |wadj| && dist[v].Finite? ==> Weighs(wadj, s, v, dist[v].n))
    && (forall i :: 0 <= i < |pq| ==>
          pq[i].1 < |dist| && dist[pq[i].1].Finite? && dist[pq[i].1].n <= pq[i].0 && level <= pq[i].0)
    && (forall v :: 0 <= v < |wadj| && dist[v].Finite? && !done[v] ==> (dist[v].n, v) in pq)
    && (forall v :: 0 <= v < |wadj| && done[v] ==> dist[v].Finite? && dist[v].n <= level)
  }

  /** Between pops: every done vertex has its list relaxed. */
  ghost predicate Exploring(wadj: seq<seq<(nat, nat)>>, s: nat, dist: seq<Cost>, done: seq<bool>, pq: seq<(nat, nat)>, level: nat)
  {
    && Weighing(wadj, s, dist, done, pq, level)
    && (forall v :: 0 <= v < |wadj| && done[v] ==> Relaxed(wadj, dist, v, |wadj[v]|))
  }

  /** While the list of u, popped at distance d, is relaxed up to entry j. */
  ghost predicate Relaxing(wadj: seq<seq<(nat, nat)>>, s: nat, dist: seq<Cost>, done: seq<bool>, pq: seq<(nat, nat)>, u: nat, d: nat, j: nat)
  {
    && Weighing(wadj, s, dist, done, pq, d)
    && u < |wadj| && j <= |wadj[u]| && done[u] && dist[u] == Finite(d)
    && Relaxed(wadj, dist, u, j)
    && (forall v :: 0 <= v < |wadj| && v != u && done[v] ==> Relaxed(wadj, dist, v, |wadj[v]|))
  }

  /** What the lightest-walk argument needs of a state: found vertices not done wait in the heap, done ones are relaxed. */
  ghost predicate Frontier(wadj: seq<seq<(nat, nat)>>, s: nat, dist: seq<Cost>, done: seq<bool>, pq: seq<(nat, nat)>)
  {
    && |dist| == |wadj| == |done| && s < |wadj| && dist[s] == Finite(0)
    && (forall v :: 0 <= v < |wadj| && dist[v].Finite? && !done[v] ==> (dist[v].n, v) in pq)
    && (forall v :: 0 <= v < |wadj| && done[v] ==> Relaxed(wadj, dist, v, |wadj[v]|))
  }

  /**
   * Between pops, a walk to v weighing c, with c below every heap entry
   * (any c once the heap is empty), means v was found no heavier than c.
   */
  lemma {:induction false} Reached(wadj: seq<seq<(nat, nat)>>, s: nat, dist: seq<Cost>, done: seq<bool>, pq: seq<(nat, nat)>, v: nat, k: nat, c: nat)
    requires Frontier(wadj, s, dist, done, pq)
    requires v < |wadj| && Weighted(wadj, s, v, k, c) && forall i :: 0 <= i < |pq| ==> c < pq[i].0
    ensures dist[v].Finite? && dist[v].n <= c
    decreases k
  {
    if k > 0 {
      var u, j :| 0 <= u < |wadj| && 0 <= j < |wadj[u]| && wadj[u][j].0 == v && wadj[u][j].1 <= c
        && Weighted(wadj, s, u, k - 1, c - wadj[u][j].1);
      Reached(wadj, s, dist, done, pq, u, k - 1, c - wadj[u][j].1);
    }
  }

  /** Once the heap is empty, every found distance is the weight of a lightest walk, and only unreachable vertices stay Infinite. */
  lemma Weighed(wadj: seq<seq<(nat, nat)>>, s: nat, dist: seq<Cost>, done: seq<bool>, level: nat)
    requires Exploring(wadj, s, dist, done, [], level)
    ensures forall v :: 0 <= v < |wadj| ==> (dist[v].Infinite? <==> forall c: nat :: !Weighs(wadj, s, v, c))
    ensures forall v :: 0 <= v < |wadj| && dist[v].Finite? ==> Cheapest(wadj, s, v, dist[v].n)
  {
    forall v, c: nat | 0 <= v < |wadj| && Weighs(wadj, s, v, c)
      ensures dist[v].Finite? && dist[v].n <= c
    {
      var k: nat :| Weighted(wadj, s, v, k, c);
      Reached(wadj, s, dist, done, [], v, k, c);
    }
  }

  /**
   * `all_shortest_paths(graph, s)`: the weight of a lightest walk from s to
   * every vertex, Infinite for the vertices no walk reaches.
   */
  method AllShortestPaths<E(==,!new)>(g: Graphs.UndirectedGraph<E>, s: nat) returns (dist: seq<Cost>)
    requires g.Valid() && s < g.n && ClosedWeighted(WeightedTargets(g.ops, g.adj))
    ensures |dist| == g.n
    ensures forall v :: 0 <= v < g.n ==> (dist[v].Infinite? <==> forall c: nat :: !Weighs(WeightedTargets(g.ops, g.adj), s, v, c))
    ensures forall v :: 0 <= v < g.n && dist[v].Finite? ==> Cheapest(WeightedTargets(g.ops, g.adj), s, v, dist[v].n)
  {
    ghost var wadj := WeightedTargets(g.ops, g.adj);
    dist := Misc.Repeat(g.n, Infinite);
    var done := Misc.Repeat(g.n, false);
    dist := dist[s := Finite(0)];
    var pq: seq<(nat, nat)> := [(0, s)];
    ghost var level := 0;
    StartWeighing(wadj, s, dist, done);
    while pq != []
      invariant Exploring(wadj, s, dist, done, pq, level)
      decreases Undone(done), |pq|
    {
      var k := PopMin(pq);
      var (d, u) := pq[k];
      if done[u] {
        PopStale(wadj, s, dist, done, pq, level, k);
      } else {
        PopFresh(wadj, s, dist, done, pq, level, k);
      }
      pq := pq[..k] + pq[k + 1..];
      if !done[u] {
        UndoneUpdate(done, u);
        done := done[u := true];
        level := d;
        dist, pq := RelaxList(g, wadj, s, dist, done, pq, u, d);
      }
    }
    Weighed(wadj, s, dist, done, level);
  }

  /** The search starts with s at distance 0 in the heap and nothing done. */
  lemma StartWeighing(wadj: seq<seq<(nat, nat)>>, s: nat, dist: seq<Cost>, done: seq<bool>)
    requires ClosedWeighted(wadj) && s < |wadj| == |dist| && dist == Misc.Repeat(|wadj|, Infinite)[s := Finite(0)]
    requires done == Misc.Repeat(|wadj|, false)
    ensures Exploring(wadj, s, dist, done, [(0, s)], 0)
  {
    assert Weighted(wadj, s, s, 0, 0);
  }

  /** Popping a stale entry, one of a vertex already done, leaves a heap of the search. */
  lemma PopStale(wadj: seq<seq<(nat, nat)>>, s: nat, dist: seq<Cost>, done: seq<bool>, pq: seq<(nat, nat)>, level: nat, k: nat)
    requires Exploring(wadj, s, dist, done, pq, level) && k < |pq| && done[pq[k].1]
    ensures Exploring(wadj, s, dist, done, pq[..k] + pq[k + 1..], level)
  {
    RemoveAt(pq, k);
  }

  /**
   * Popping the least entry (d, u) of a vertex not done: d is u's
   * distance, and marking u done starts the relaxation of its list at
   * level d.
   */
  lemma PopFresh(wadj: seq<seq<(nat, nat)>>, s: nat, dist: seq<Cost>, done: seq<bool>, pq: seq<(nat, nat)>, level: nat, k: nat)
    requires Exploring(wadj, s, dist, done, pq, level) && k < |pq| && !done[pq[k].1]
    requires forall i :: 0 <= i < |pq| ==> pq[k].0 <= pq[i].0
    ensures Relaxing(wadj, s, dist, done[pq[k].1 := true], pq[..k] + pq[k + 1..], pq[k].1, pq[k].0, 0)
  {
    var (d, u) := pq[k];
    RemoveAt(pq, k);
    assert (dist[u].n, u) in pq;
  }

  /** The `for e in &graph[&u]` loop: every head reachable cheaper through u gets the new distance and a heap entry. */
  method RelaxList<E(==,!new)>(g: Graphs.UndirectedGraph<E>, ghost wadj: seq<seq<(nat, nat)>>, s: nat, dist0: seq<Cost>, done: seq<bool>,
                               pq0: seq<(nat, nat)>, u: nat, d: nat)
      returns (dist: seq<Cost>, pq: seq<(nat, nat)>)
    requires g.Valid() && wadj == WeightedTargets(g.ops, g.adj)
    requires Relaxing(wadj, s, dist0, done, pq0, u, d, 0)
    ensures Exploring(wadj, s, dist, done, pq, d)
  {
    dist, pq := dist0, pq0;
    var es := g.adj[u];
    for j := 0 to |es|
      invariant Relaxing(wadj, s, dist, done, pq, u, d, j)
    {
      dist, pq := RelaxEntry(g, wadj, s, dist, done, pq, u, d, j);
    }
  }

  /** One entry of u's list: its head takes d plus the step's weight and a heap entry when that is lighter. */
  method RelaxEntry<E(==,!new)>(g: Graphs.UndirectedGraph<E>, ghost wadj: seq<seq<(nat, nat)>>, s: nat, dist0: seq<Cost>, done: seq<bool>,
                                pq0: seq<(nat, nat)>, u: nat, d: nat, j: nat)
      returns (dist: seq<Cost>, pq: seq<(nat, nat)>)
    requires g.Valid() && wadj == WeightedTargets(g.ops, g.adj)
    requires Relaxing(wadj, s, dist0, done, pq0, u, d, j) && j < |g.adj[u]|
    ensures Relaxing(wadj, s, dist, done, pq, u, d, j + 1)
  {
    dist, pq := dist0, pq0;
    var e := g.adj[u][j];
    var v := g.ops.to(e);
    var dv := d + g.ops.weight(e);
    assert wadj[u][j] == (v, g.ops.weight(e));
    if Cmp(Finite(dv), dist[v]) == Less {
      Improve(wadj, s, dist, done, pq, u, d, j);
      dist := dist[v := Finite(dv)];
      pq := pq + [(dv, v)];
    } else {
      Keep(wadj, s, dist, done, pq, u, d, j);
    }
  }

  /** A step out of u that beats its head's distance: the head takes the new distance and a new heap entry. */
  lemma Improve(wadj: seq<seq<(nat, nat)>>, s: nat, dist: seq<Cost>, done: seq<bool>, pq: seq<(nat, nat)>, u: nat, d: nat, j: nat)
    requires Relaxing(wadj, s, dist, done, pq, u, d, j) && j < |wadj[u]|
    requires var (v, w) := wadj[u][j]; dist[v].Infinite? || d + w < dist[v].n
    ensures var (v, w) := wadj[u][j];
      Relaxing(wadj, s, dist[v := Finite(d + w)], done, pq + [(d + w, v)], u, d, j + 1)
  {
    var (v, w) := wadj[u][j];
    var k :| Weighted(wadj, s, u, k, d);
    WeightedStep(wadj, s, u, j, k, d);
    var dist' := dist[v := Finite(d + w)];
    var pq' := pq + [(d + w, v)];
    forall x | x in pq
      ensures x in pq'
    {
      var i :| 0 <= i < |pq| && pq[i] == x;
      assert pq'[i] == x;
    }
    assert pq'[|pq|] == (d + w, v);
  }

  /** A step out of u that does not beat its head's distance changes nothing. */
  lemma Keep(wadj: seq<seq<(nat, nat)>>, s: nat, dist: seq<Cost>, done: seq<bool>, pq: seq<(nat, nat)>, u: nat, d: nat, j: nat)
    requires Relaxing(wadj, s, dist, done, pq, u, d, j) && j < |wadj[u]|
    requires var (v, w) := wadj[u][j]; dist[v].Finite? && dist[v].n <= d + w
    ensures Relaxing(wadj, s, dist, done, pq, u, d, j + 1)
  {
  }
}
