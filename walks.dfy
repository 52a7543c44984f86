/**
 * Walks along adjacency lists: the reference that the breadth-first
 * searches of src/algorithm/shortest_path.rs, src/algorithm/odd_walk.rs
 * and src/algorithm/network_diversion.rs are proved against.  A list
 * `adj[u]` holding v is a step from u to v.
 */
module Walks {
  import Edges

  /** There is a walk of exactly k steps from s to v. */
  ghost predicate Walk(adj: seq<seq<nat>>, s: nat, v: nat, k: nat)
    decreases k
  {
    if k == 0 then v == s
    else exists u :: 0 <= u < |adj| && v in adj[u] && Walk(adj, s, u, k - 1)
  }

  ghost predicate Reachable(adj: seq<seq<nat>>, s: nat, v: nat)
  {
    exists k: nat :: Walk(adj, s, v, k)
  }

  /** k is the length of a shortest walk from s to v. */
  ghost predicate Shortest(adj: seq<seq<nat>>, s: nat, v: nat, k: nat)
  {
    Walk(adj, s, v, k) && forall j: nat :: j < k ==> !Walk(adj, s, v, j)
  }

  /** Every list entry names a vertex, so indexing by it never panics. */
  predicate Closed(adj: seq<seq<nat>>)
  {
    forall u, i :: 0 <= u < |adj| && 0 <= i < |adj[u]| ==> adj[u][i] < |adj|
  }

  /** The heads of the edges in every list: the steps a search over edges takes. */
  function Targets<E>(ops: Edges.EdgeOps<E>, adj: seq<seq<E>>): (r: seq<seq<nat>>)
    ensures |r| == |adj|
    ensures forall u :: 0 <= u < |adj| ==> |r[u]| == |adj[u]|
    ensures forall u, i :: 0 <= u < |adj| && 0 <= i < |adj[u]| ==> r[u][i] == ops.to(adj[u][i])
  {
    seq(|adj|, u requires 0 <= u < |adj| => seq<nat>(|adj[u]|, i requires 0 <= i < |adj[u]| => ops.to(adj[u][i])))
  }

  /** A walk to u followed by one step out of u's list. */
  lemma WalkStep(adj: seq<seq<nat>>, s: nat, u: nat, i: nat, k: nat)
    requires u < |adj| && i < |adj[u]| && Walk(adj, s, u, k)
    ensures Walk(adj, s, adj[u][i], k + 1)
  {
    assert adj[u][i] in adj[u];
  }

  /** There is a walk of exactly k steps from s to v whose step weights add up to c. */
  ghost predicate Weighted(wadj: seq<seq<(nat, nat)>>, s: nat, v: nat, k: nat, c: nat)
    decreases k
  {
    if k == 0 then v == s && c == 0
    else exists u, j :: (0 <= u < |wadj| && 0 <= j < |wadj[u]| && wadj[u][j].0 == v && wadj[u][j].1 <= c
      && Weighted(wadj, s, u, k - 1, c - wadj[u][j].1))
  }

  /** Some walk from s to v weighs c. */
  ghost predicate Weighs(wadj: seq<seq<(nat, nat)>>, s: nat, v: nat, c: nat)
  {
    exists k: nat :: Weighted(wadj, s, v, k, c)
  }

  /** c is the weight of a lightest walk from s to v. */
  ghost predicate Cheapest(wadj: seq<seq<(nat, nat)>>, s: nat, v: nat, c: nat)
  {
    Weighs(wadj, s, v, c) && forall c': nat :: c' < c ==> !Weighs(wadj, s, v, c')
  }

  /** Every list entry's head names a vertex. */
  predicate ClosedWeighted(wadj: seq<seq<(nat, nat)>>)
  {
    forall u, j :: 0 <= u < |wadj| && 0 <= j < |wadj[u]| ==> wadj[u][j].0 < |wadj|
  }

  /** The head and the weight of the edges in every list. */
  function WeightedTargets<E>(ops: Edges.EdgeOps<E>, adj: seq<seq<E>>): (r: seq<seq<(nat, nat)>>)
    ensures |r| == |adj|
    ensures forall u :: 0 <= u < |adj| ==> |r[u]| == |adj[u]|
    ensures forall u, j :: 0 <= u < |adj| && 0 <= j < |adj[u]| ==> r[u][j] == (ops.to(adj[u][j]), ops.weight(adj[u][j]))
  {
    seq(|adj|, u requires 0 <= u < |adj| =>
      seq<(nat, nat)>(|adj[u]|, j requires 0 <= j < |adj[u]| => (ops.to(adj[u][j]), ops.weight(adj[u][j]))))
  }

  /** A walk to u followed by one weighted step out of u's list. */
  lemma WeightedStep(wadj: seq<seq<(nat, nat)>>, s: nat, u: nat, j: nat, k: nat, c: nat)
    requires u < |wadj| && j < |wadj[u]| && Weighted(wadj, s, u, k, c)
    ensures Weighted(wadj, s, wadj[u][j].0, k + 1, c + wadj[u][j].1)
  {
  }
}
