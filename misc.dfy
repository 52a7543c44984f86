/** `repeat` and `assert_is_path` (src/utility/misc.rs). */
module Misc {
  import opened Wrappers
  import Edges

  /** `repeat(n, e)`: n copies of e. */
  function Repeat<T>(n: nat, e: T): (r: seq<T>)
    ensures |r| == n
    ensures forall i :: 0 <= i < n ==> r[i] == e
  {
    seq(n, _ => e)
  }

  /**
   * The condition `assert_is_path` checks: no edge arrives at the first
   * edge's tail or at a vertex an earlier edge arrived at.
   */
  ghost predicate Revisits<E>(ops: Edges.EdgeOps<E>, path: seq<E>, k: nat)
    requires k < |path|
  {
    ops.to(path[k]) == ops.from(path[0])
    || exists j :: 0 <= j < k && ops.to(path[j]) == ops.to(path[k])
  }

  /**
   * `assert_is_path(path)`: None when the check passes, or the vertex the
   * failing assertion names, which is the head of the first edge that
   * revisits a vertex.
   */
  method AssertIsPath<E>(ops: Edges.EdgeOps<E>, path: seq<E>) returns (r: Option<nat>)
    ensures r.None? <==> forall k :: 0 <= k < |path| ==> !Revisits(ops, path, k)
    ensures r.Some? ==> exists k :: (0 <= k < |path| && Revisits(ops, path, k) && r.value == ops.to(path[k])
      && forall j :: 0 <= j < k ==> !Revisits(ops, path, j))
  {
    if |path| == 0 {
      return None;
    }
    var visited: set<nat> := {ops.from(path[0])};
    var i := 0;
    while i < |path|
      invariant i <= |path|
      invariant visited == {ops.from(path[0])} + set j | 0 <= j < i :: ops.to(path[j])
      invariant forall k :: 0 <= k < i ==> !Revisits(ops, path, k)
    {
      var v := ops.to(path[i]);
      if v in visited {
        assert Revisits(ops, path, i);
        return Some(v);
      }
      visited := visited + {v};
      i := i + 1;
    }
    return None;
  }
}
