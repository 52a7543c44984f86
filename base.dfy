/**
 * `Base` (src/structure/base.rs): the union-find structure that maps every
 * vertex to the base of its blossom.  `basis` is a forest of parent
 * pointers; reading a base compresses the path it walked.
 */
module Bases {

  /**
   * The forest condition at one vertex: its parent and base are vertices,
   * its base is a fixed point, its parent has the same base, and ranks grow
   * towards the base.
   */
  ghost predicate NodeOk(basis: seq<nat>, root: seq<nat>, rank: seq<nat>, u: nat)
    requires |root| == |basis| && |rank| == |basis| && u < |basis|
  {
    && basis[u] < |basis| && root[u] < |basis|
    && basis[root[u]] == root[u]
    && root[basis[u]] == root[u]
    && (basis[u] == u ==> root[u] == u)
    && (basis[u] != u ==> rank[u] < rank[basis[u]])
    && (root[u] != u ==> rank[u] < rank[root[u]])
  }

  /** The parent pointers form a forest whose roots are the bases in `root`. */
  ghost predicate Inv(basis: seq<nat>, root: seq<nat>, rank: seq<nat>)
  {
    && |root| == |basis| && |rank| == |basis|
    && forall u :: 0 <= u < |basis| ==> NodeOk(basis, root, rank, u)
  }

  /** Every vertex whose base was b now has base rx. */
  function Relink(root: seq<nat>, b: nat, rx: nat): seq<nat>
  {
    seq(|root|, v requires 0 <= v < |root| => if root[v] == b then rx else root[v])
  }
  /** The ranks of rx's class raised above every rank of the class joining it. */
  function Raise(rank: seq<nat>, root: seq<nat>, rx: nat, raise: nat): seq<nat>
    requires |rank| == |root|
  {
    seq(|rank|, v requires 0 <= v < |rank| => if root[v] == rx then rank[v] + raise else rank[v])
  }

  /** Hanging the base b below a vertex x of another class keeps the forest valid. */
  lemma Link(basis: seq<nat>, root: seq<nat>, rank: seq<nat>, b: nat, x: nat)
    requires Inv(basis, root, rank)
    requires b < |basis| && x < |basis| && basis[b] == b && root[x] != b
    ensures Inv(basis[b := x], Relink(root, b, root[x]), Raise(rank, root, root[x], rank[b] + 1))
  {
    var n := |basis|;
    var rx := root[x];
    var raise := rank[b] + 1;
    var basis', root', rank' := basis[b := x], Relink(root, b, rx), Raise(rank, root, rx, raise);
    assert NodeOk(basis, root, rank, b) && NodeOk(basis, root, rank, x);
    assert NodeOk(basis, root, rank, rx);
    forall u | 0 <= u < n ensures NodeOk(basis', root', rank', u) {
      assert NodeOk(basis, root, rank, u);
      var p := basis[u];
      var r := root[u];
      assert NodeOk(basis, root, rank, p);
      assert NodeOk(basis, root, rank, r);
    }
  }

  /** Pointing u straight at its base keeps the forest valid. */
  lemma Compress(basis: seq<nat>, root: seq<nat>, rank: seq<nat>, u: nat)
    requires Inv(basis, root, rank) && u < |basis|
    ensures Inv(basis[u := root[u]], root, rank)
  {
    var basis' := basis[u := root[u]];
    assert NodeOk(basis, root, rank, u);
    assert NodeOk(basis, root, rank, root[u]);
    forall v | 0 <= v < |basis| ensures NodeOk(basis', root, rank, v) {
      assert NodeOk(basis, root, rank, v);
      assert NodeOk(basis, root, rank, root[v]);
    }
  }

  class Base {
    /** The parent pointer of every vertex; a vertex that is its own parent is a base. */
    var basis: seq<nat>
    /** The base every vertex's chain ends in. */
    ghost var root: seq<nat>
    /** A rank that strictly grows along every parent pointer, so chains are finite. */
    ghost var rank: seq<nat>

    ghost predicate Valid()
      reads this
    {
      Inv(basis, root, rank)
    }

    /** How far u's rank is below its base's rank: shrinks at every step towards the base. */
    ghost function Gap(u: nat): nat
      reads this
      requires Valid() && u < |basis|
    {
      assert NodeOk(basis, root, rank, u);
      rank[root[u]] - rank[u]
    }

    /** `Base::new(n)`: every vertex is its own base. */
    constructor (n: nat)
      ensures Valid() && |basis| == n
      ensures forall u :: 0 <= u < n ==> basis[u] == u && root[u] == u
    {
      basis := seq(n, u => u);
      root := seq(n, u => u);
      rank := seq(n, u => 0);
    }

    /**
     * `get_base(u)` (also `self[u]`): the base of u.  On the way, the
     * parent of u is set to that base, and so is the parent of every vertex
     * the recursion passes; no vertex changes its base.
     */
    method GetBase(u: nat) returns (b: nat)
      requires Valid() && u < |basis|
      modifies this
      ensures Valid()
      ensures |basis| == old(|basis|) && root == old(root) && rank == old(rank)
      ensures b == root[u] && basis[u] == b
      ensures forall v :: 0 <= v < |basis| ==> basis[v] == old(basis[v]) || basis[v] == root[v]
      decreases Gap(u)
    {
      assert NodeOk(basis, root, rank, u);
      if u != basis[u] {
        assert NodeOk(basis, root, rank, basis[u]);
        var baseBase := GetBase(basis[u]);
        Compress(basis, root, rank, u);
        basis := basis[u := baseBase];
      }
      b := basis[u];
    }

    /** `same_base(u, v)`: whether u and v lie in the same class. */
    method SameBase(u: nat, v: nat) returns (same: bool)
      requires Valid() && u < |basis| && v < |basis|
      modifies this
      ensures Valid() && |basis| == old(|basis|) && root == old(root)
      ensures same <==> root[u] == root[v]
    {
      var bu := GetBase(u);
      var bv := GetBase(v);
      same := bu == bv;
    }

    /**
     * `self[u] = x` (`IndexMut`), and `set_base(u, x)`: the parent of u's
     * base becomes x, so u's whole class joins x's class.  x must lie
     * outside u's class (or be its base), or later reads never end.
     */
    method SetBase(u: nat, x: nat)
      requires Valid() && u < |basis| && x < |basis|
      requires root[x] != root[u] || x == root[u]
      modifies this
      ensures Valid() && |basis| == old(|basis|)
      ensures forall v :: 0 <= v < |basis| ==>
        root[v] == if old(root[v]) == old(root[u]) then old(root[x]) else old(root[v])
    {
      var b := GetBase(u);
      assert NodeOk(basis, root, rank, u);
      if x != b {
        Link(basis, root, rank, b, x);
        ghost var rx := root[x];
        basis := basis[b := x];
        rank := Raise(rank, root, rx, rank[b] + 1);
        root := Relink(root, b, rx);
      } else {
        assert basis[b := x] == basis;
      }
    }
  }

  /**
   * The unit test of base.rs: after the listed assignments, `base[5]` is 8,
   * `base[1]` is 0, 7 and 9 share a base, and 1 and 4 do not.
   */
  method TestBase() returns (base5: nat, base1: nat, same79: bool, same14: bool, same01: bool, same23: bool)
    ensures !same23 && same01
    ensures base5 == 8 && base1 == 0 && same79 && !same14
  {
    var base := new Base(10);
    var s := base.SameBase(0, 1);
    assert !s;
    same23 := base.SameBase(2, 3);
    base.SetBase(1, 0);
    same01 := base.SameBase(0, 1);
    base.SetBase(3, 4);
    base.SetBase(5, 4);
    base.SetBase(5, 6);
    base.SetBase(7, 8);
    base.SetBase(9, 5);
    base.SetBase(5, 8);
    base5 := base.GetBase(5);
    base1 := base.GetBase(1);
    same79 := base.SameBase(7, 9);
    same14 := base.SameBase(1, 4);
  }
}
