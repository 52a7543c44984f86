/**
 * Face tracing over a rotation system, as `determine_faces` does it in
 * src/structure/graph/planar/pre_planar_graph.rs and
 * src/structure/graph/planar_graph.rs: every directed edge whose left face
 * is unset starts a walk that labels the left side of each edge it follows
 * and the right side of the reverse edge it finds, then turns to the next
 * edge around the head, until it comes back to the start vertex.
 */
module Faces {
  import opened Wrappers
  import opened AdjLists

  /** What tracing needs of an edge type: its endpoints and its two faces, readable and settable. */
  datatype FaceOps<!E> = FaceOps(
    from: E -> nat, to: E -> nat, weight: E -> nat,
    left: E -> Option<nat>, right: E -> Option<nat>,
    withLeft: (E, nat) -> E, withRight: (E, nat) -> E)

  /** Setting one face sets exactly that face and keeps the endpoints and the weight. */
  ghost predicate Lawful<E(!new)>(ops: FaceOps<E>)
  {
    && (forall e: E, f: nat ::
          && ops.from(ops.withLeft(e, f)) == ops.from(e) && ops.to(ops.withLeft(e, f)) == ops.to(e)
          && ops.weight(ops.withLeft(e, f)) == ops.weight(e)
          && ops.left(ops.withLeft(e, f)) == Some(f) && ops.right(ops.withLeft(e, f)) == ops.right(e))
    && (forall e: E, f: nat ::
          && ops.from(ops.withRight(e, f)) == ops.from(e) && ops.to(ops.withRight(e, f)) == ops.to(e)
          && ops.weight(ops.withRight(e, f)) == ops.weight(e)
          && ops.right(ops.withRight(e, f)) == Some(f) && ops.left(ops.withRight(e, f)) == ops.left(e))
  }

  /** Every list holds edges leaving its own vertex towards a vertex that has a list. */
  ghost predicate Placed<E>(ops: FaceOps<E>, adj: seq<seq<E>>)
  {
    forall u, i :: 0 <= u < |adj| && 0 <= i < |adj[u]| ==> ops.from(adj[u][i]) == u && ops.to(adj[u][i]) < |adj|
  }

  /** b has a's lists, lengths, endpoints and weights: only faces may differ. */
  ghost predicate SameShape<E>(ops: FaceOps<E>, a: seq<seq<E>>, b: seq<seq<E>>)
  {
    && |a| == |b|
    && (forall u :: 0 <= u < |a| ==> |a[u]| == |b[u]|)
    && (forall u, i :: 0 <= u < |a| && 0 <= i < |a[u]| ==>
          && ops.from(b[u][i]) == ops.from(a[u][i]) && ops.to(b[u][i]) == ops.to(a[u][i])
          && ops.weight(b[u][i]) == ops.weight(a[u][i]))
  }

  /** No face is set anywhere, as after parsing. */
  ghost predicate NoFaces<E>(ops: FaceOps<E>, adj: seq<seq<E>>)
  {
    forall u, i :: 0 <= u < |adj| && 0 <= i < |adj[u]| ==> ops.left(adj[u][i]).None? && ops.right(adj[u][i]).None?
  }

  /** Every face that is set is one of the first k. */
  ghost predicate FacesBelow<E>(ops: FaceOps<E>, adj: seq<seq<E>>, k: nat)
  {
    forall u, i :: 0 <= u < |adj| && 0 <= i < |adj[u]| ==>
      && (ops.left(adj[u][i]).Some? ==> ops.left(adj[u][i]).value < k)
      && (ops.right(adj[u][i]).Some? ==> ops.right(adj[u][i]).value < k)
  }

  /** The left face of every edge leaving the first n vertices is set. */
  ghost predicate LeftsSet<E>(ops: FaceOps<E>, adj: seq<seq<E>>, n: nat)
  {
    forall u, i :: 0 <= u < n && u < |adj| && 0 <= i < |adj[u]| ==> ops.left(adj[u][i]).Some?
  }

  /**
   * The check after tracing: every edge leaving the first n vertices has
   * both faces.
   */
  predicate AllFacesSet<E>(ops: FaceOps<E>, adj: seq<seq<E>>, n: nat)
  {
    forall u, i :: 0 <= u < n && u < |adj| && 0 <= i < |adj[u]| ==>
      ops.left(adj[u][i]).Some? && ops.right(adj[u][i]).Some?
  }

  /** `iter().position(|e| e.to == v)`: the first index of an edge towards v. */
  function FirstTo<E>(es: seq<E>, to: E -> nat, v: nat): (r: Option<nat>)
    ensures r.Some? ==> r.value < |es| && to(es[r.value]) == v && forall j :: 0 <= j < r.value ==> to(es[j]) != v
    ensures r.None? ==> forall j :: 0 <= j < |es| ==> to(es[j]) != v
  {
    if |es| == 0 then None
    else if to(es[0]) == v then Some(0)
    else
      match FirstTo(es[1..], to, v)
      case None => None
      case Some(j) => Some(j + 1)
  }

  const REVERSE_MISSING := "Couldn't find the reverse edge"
  const WALK_OPEN := "The face walk does not return to its start vertex"

  /**
   * The two nested loops of `determine_faces`.  For every vertex below n
   * and every edge of its list whose left face is unset, a walk labels
   * faces with a fresh number.  Each step sets the left face of the
   * current edge, finds in the head's list (as it was before tracing) the
   * first edge back to the current tail, sets that edge's right face, and
   * moves to the edge after it in the head's list; the walk ends when the
   * new current edge leaves the start vertex.
   *
   * The result has the shape of the input with every left face below n
   * set, and, when the input had no faces, only faces below the returned
   * count.  A walk that has not ended after as many steps as there are
   * directed edges repeats an edge and would never end in the source; the
   * model reports it as an error.
   */
  method TraceFaces<E(!new)>(ops: FaceOps<E>, adj0: seq<seq<E>>, n: nat) returns (r: Result<(seq<seq<E>>, nat), string>)
    requires Lawful(ops) && Placed(ops, adj0) && n <= |adj0|
    ensures r.Ok? ==> SameShape(ops, adj0, r.value.0) && LeftsSet(ops, r.value.0, n)
    ensures r.Ok? && NoFaces(ops, adj0) ==> FacesBelow(ops, r.value.0, r.value.1)
    ensures r.Err? ==> r.error == REVERSE_MISSING || r.error == WALK_OPEN
  {
    var adj := adj0;
    var face := 0;
    var bound := TotalLen(adj0) + 1;
    for start := 0 to n
      invariant SameShape(ops, adj0, adj)
      invariant NoFaces(ops, adj0) ==> FacesBelow(ops, adj, face)
      invariant LeftsSet(ops, adj, start)
    {
      for k := 0 to |adj0[start]|
        invariant SameShape(ops, adj0, adj)
        invariant NoFaces(ops, adj0) ==> FacesBelow(ops, adj, face)
        invariant LeftsSet(ops, adj, start)
        invariant forall i :: 0 <= i < k ==> ops.left(adj[start][i]).Some?
      {
        if ops.left(adj[start][k]).None? {
          var walk := Walk(ops, adj0, adj, start, k, face, bound);
          if walk.Err? {
            return Err(walk.error);
          }
          adj := walk.value;
          face := face + 1;
        }
      }
    }
    return Ok((adj, face));
  }

  /** Every left face set in a is still set in b. */
  ghost predicate KeepsLefts<E>(ops: FaceOps<E>, a: seq<seq<E>>, b: seq<seq<E>>)
  {
    forall u, i :: 0 <= u < |a| && u < |b| && 0 <= i < |a[u]| && i < |b[u]| && ops.left(a[u][i]).Some? ==>
      ops.left(b[u][i]).Some?
  }

  /** Labelling one left side with f keeps the shape and every set left face, and sets this one. */
  lemma SetLeftFacts<E(!new)>(ops: FaceOps<E>, adj0: seq<seq<E>>, adj1: seq<seq<E>>, adj: seq<seq<E>>, u: nat, i: nat, f: nat)
    requires Lawful(ops) && SameShape(ops, adj0, adj) && u < |adj| && i < |adj[u]|
    ensures var r := adj[u := adj[u][i := ops.withLeft(adj[u][i], f)]];
      && SameShape(ops, adj0, r) && ops.left(r[u][i]) == Some(f)
      && KeepsLefts(ops, adj, r)
      && (KeepsLefts(ops, adj1, adj) ==> KeepsLefts(ops, adj1, r))
      && (FacesBelow(ops, adj, f + 1) ==> FacesBelow(ops, r, f + 1))
  {
    var r := adj[u := adj[u][i := ops.withLeft(adj[u][i], f)]];
    assert ops.left(ops.withLeft(adj[u][i], f)) == Some(f);
  }

  /** Labelling one right side with f keeps the shape and every set left face. */
  lemma SetRightFacts<E(!new)>(ops: FaceOps<E>, adj0: seq<seq<E>>, adj1: seq<seq<E>>, adj: seq<seq<E>>, u: nat, i: nat, f: nat)
    requires Lawful(ops) && SameShape(ops, adj0, adj) && u < |adj| && i < |adj[u]|
    ensures var r := adj[u := adj[u][i := ops.withRight(adj[u][i], f)]];
      && SameShape(ops, adj0, r)
      && KeepsLefts(ops, adj, r)
      && (KeepsLefts(ops, adj1, adj) ==> KeepsLefts(ops, adj1, r))
      && (FacesBelow(ops, adj, f + 1) ==> FacesBelow(ops, r, f + 1))
  {
    var r := adj[u := adj[u][i := ops.withRight(adj[u][i], f)]];
    assert ops.left(ops.withRight(adj[u][i], f)) == ops.left(adj[u][i]);
  }

  /**
   * One face walk (the `loop` of `determine_faces`) labelling with `face`,
   * starting at edge k of the start vertex's list, for at most `bound` steps.
   */
  method Walk<E(!new)>(ops: FaceOps<E>, adj0: seq<seq<E>>, adj1: seq<seq<E>>, start: nat, k: nat, face: nat, bound: nat)
      returns (r: Result<seq<seq<E>>, string>)
    requires Lawful(ops) && Placed(ops, adj0) && SameShape(ops, adj0, adj1)
    requires start < |adj0| && k < |adj0[start]|
    ensures r.Err? ==> r.error == REVERSE_MISSING || r.error == WALK_OPEN
    ensures r.Ok? ==> SameShape(ops, adj0, r.value) && ops.left(r.value[start][k]).Some?
    ensures r.Ok? ==> KeepsLefts(ops, adj1, r.value)
    ensures r.Ok? && FacesBelow(ops, adj1, face) ==> FacesBelow(ops, r.value, face + 1)
  {
    var adj := adj1;
    var cu: nat, cid: nat := start, k;
    var steps := 0;
    ghost var below := FacesBelow(ops, adj1, face);
    if below {
      FacesBelowMono(ops, adj1, face, face + 1);
    }
    while true
      invariant SameShape(ops, adj0, adj)
      invariant cu < |adj0|
      invariant cid < |adj0[cu]|
      invariant steps <= bound
      invariant steps == 0 ==> cu == start && cid == k
      invariant steps > 0 ==> ops.left(adj[start][k]).Some?
      invariant KeepsLefts(ops, adj1, adj)
      invariant below ==> FacesBelow(ops, adj, face + 1)
      decreases bound - steps
    {
      if steps == bound {
        return Err(WALK_OPEN);
      }
      var line := adj0[cu][cid];
      var tail, head := ops.from(line), ops.to(line);
      SetLeftFacts(ops, adj0, adj1, adj, tail, cid, face);
      adj := adj[tail := adj[tail][cid := ops.withLeft(adj[tail][cid], face)]];
      var id := FirstTo(adj0[head], ops.to, tail);
      if id.None? {
        return Err(REVERSE_MISSING);
      }
      SetRightFacts(ops, adj0, adj1, adj, head, id.value, face);
      adj := adj[head := adj[head][id.value := ops.withRight(adj[head][id.value], face)]];
      cid := (id.value + 1) % |adj0[head]|;
      cu := head;
      steps := steps + 1;
      if ops.from(adj0[cu][cid]) == start {
        break;
      }
    }
    return Ok(adj);
  }

  lemma FacesBelowMono<E>(ops: FaceOps<E>, adj: seq<seq<E>>, k: nat, k': nat)
    requires FacesBelow(ops, adj, k) && k <= k'
    ensures FacesBelow(ops, adj, k')
  {
  }
}
