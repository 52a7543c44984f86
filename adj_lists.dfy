/**
 * Adjacency lists as values: the pushes the graph classes perform, and
 * what the lists hold after a sequence of them.
 */
module AdjLists {

  /** `adj[u].push(x)`. */
  function Push<T>(adj: seq<seq<T>>, u: nat, x: T): (r: seq<seq<T>>)
    requires u < |adj|
    ensures |r| == |adj| && r[u] == adj[u] + [x]
    ensures forall w :: 0 <= w < |adj| && w != u ==> r[w] == adj[w]
  {
    adj[u := adj[u] + [x]]
  }

  /** `add_edge(u, v)` of an unweighted undirected graph: v onto u's list, then u onto v's. */
  function AddUndirected(adj: seq<seq<nat>>, u: nat, v: nat): (r: seq<seq<nat>>)
    requires u < |adj| && v < |adj|
    ensures |r| == |adj|
    ensures forall w :: 0 <= w < |adj| ==>
      r[w] == adj[w] + (if w == u then [v] else []) + (if w == v then [u] else [])
  {
    Push(Push(adj, u, v), v, u)
  }

  predicate EdgesIn(n: nat, edges: seq<(nat, nat)>)
  {
    forall i :: 0 <= i < |edges| ==> edges[i].0 < n && edges[i].1 < n
  }

  /** The lists after adding the edges one by one, in order. */
  function AddAllUndirected(adj: seq<seq<nat>>, edges: seq<(nat, nat)>): (r: seq<seq<nat>>)
    requires EdgesIn(|adj|, edges)
    ensures |r| == |adj|
  {
    if |edges| == 0 then adj
    else
      var last := edges[|edges| - 1];
      AddUndirected(AddAllUndirected(adj, edges[..|edges| - 1]), last.0, last.1)
  }

  /**
   * After adding a list of edges, b is a neighbour of a exactly when it
   * was one before or a–b is one of the edges in either orientation: the
   * result is symmetric in what was added.
   */
  lemma {:induction false} AddAllMembership(adj: seq<seq<nat>>, edges: seq<(nat, nat)>, a: nat, b: nat)
    requires EdgesIn(|adj|, edges) && a < |adj|
    ensures b in AddAllUndirected(adj, edges)[a] <==> b in adj[a] || (a, b) in edges || (b, a) in edges
  {
    if |edges| > 0 {
      var init := edges[..|edges| - 1];
      var last := edges[|edges| - 1];
      AddAllMembership(adj, init, a, b);
      assert edges == init + [last];
      var mid := AddAllUndirected(adj, init);
      var one := Push(mid, last.0, last.1);
      assert b in one[a] <==> b in mid[a] || (a == last.0 && b == last.1);
      assert b in Push(one, last.1, last.0)[a] <==> b in one[a] || (a == last.1 && b == last.0);
    }
  }

  /** The total number of entries over all lists. */
  function TotalLen<T>(adj: seq<seq<T>>): nat
  {
    if |adj| == 0 then 0 else TotalLen(adj[..|adj| - 1]) + |adj[|adj| - 1]|
  }

  /** A push adds exactly one entry in total. */
  lemma {:induction false} TotalLenPush<T>(adj: seq<seq<T>>, u: nat, x: T)
    requires u < |adj|
    ensures TotalLen(Push(adj, u, x)) == TotalLen(adj) + 1
  {
    var r := Push(adj, u, x);
    if u == |adj| - 1 {
      assert r[..|r| - 1] == adj[..|adj| - 1];
    } else {
      assert r[..|r| - 1] == Push(adj[..|adj| - 1], u, x);
      TotalLenPush(adj[..|adj| - 1], u, x);
    }
  }

  /** `vec![Vec::new(); n]`. */
  function EmptyLists<T>(n: nat): (r: seq<seq<T>>)
    ensures |r| == n && forall u :: 0 <= u < n ==> r[u] == []
  {
    seq(n, u => [])
  }

  /** Lists that are all empty hold no entries. */
  lemma {:induction false} TotalLenEmpty<T>(n: nat)
    ensures TotalLen(EmptyLists<T>(n)) == 0
  {
    if n > 0 {
      assert EmptyLists<T>(n)[..n - 1] == EmptyLists<T>(n - 1);
      TotalLenEmpty<T>(n - 1);
    }
  }

  /**
   * `iter().filter(|e| e.to() == v)`: the entries whose head is v, in
   * their original order.
   */
  function EdgesTo<E(==,!new)>(es: seq<E>, to: E -> nat, v: nat): (r: seq<E>)
    ensures |r| <= |es|
    ensures forall i :: 0 <= i < |r| ==> to(r[i]) == v
    ensures forall x :: x in r <==> x in es && to(x) == v
  {
    if |es| == 0 then []
    else (if to(es[0]) == v then [es[0]] else []) + EdgesTo(es[1..], to, v)
  }

  /** Filtering a concatenation filters each part and keeps them in order. */
  lemma {:induction false} EdgesToAppend<E(!new)>(a: seq<E>, b: seq<E>, to: E -> nat, v: nat)
    ensures EdgesTo(a + b, to, v) == EdgesTo(a, to, v) + EdgesTo(b, to, v)
  {
    if |a| > 0 {
      assert (a + b)[0] == a[0] && (a + b)[1..] == a[1..] + b;
      EdgesToAppend(a[1..], b, to, v);
    } else {
      assert a + b == b;
    }
  }

  /** `iter().find(|e| e.to() == v).is_some()`: some entry has head v. */
  function AnyTo<E>(es: seq<E>, to: E -> nat, v: nat): (r: bool)
    ensures r <==> exists i :: 0 <= i < |es| && to(es[i]) == v
  {
    if |es| == 0 then false
    else to(es[0]) == v || AnyTo(es[1..], to, v)
  }

  /** Some entry has head v exactly when the filter for v is non-empty. */
  lemma AnyToEdgesTo<E(!new)>(es: seq<E>, to: E -> nat, v: nat)
    ensures AnyTo(es, to, v) <==> EdgesTo(es, to, v) != []
  {
    if AnyTo(es, to, v) {
      var i :| 0 <= i < |es| && to(es[i]) == v;
      assert es[i] in EdgesTo(es, to, v);
    }
  }

  /** After one push, w's list reaches v exactly when it did before or the pushed edge does. */
  lemma AnyToPush<E>(adj: seq<seq<E>>, u: nat, x: E, w: nat, v: nat, to: E -> nat)
    requires u < |adj| && w < |adj|
    ensures AnyTo(Push(adj, u, x)[w], to, v) <==> AnyTo(adj[w], to, v) || (w == u && to(x) == v)
  {
    var r := Push(adj, u, x);
    if w == u {
      if AnyTo(adj[w], to, v) {
        var i :| 0 <= i < |adj[w]| && to(adj[w][i]) == v;
        assert r[w][i] == adj[w][i];
      }
      if to(x) == v {
        assert r[w][|adj[w]|] == x;
      }
      if AnyTo(r[w], to, v) {
        var i :| 0 <= i < |r[w]| && to(r[w][i]) == v;
        if i < |adj[w]| {
          assert r[w][i] == adj[w][i];
        }
      }
    }
  }
}
