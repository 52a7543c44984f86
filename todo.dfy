/**
 * `Todo` (src/structure/todo.rs): the entries of the priority queue of
 * Derigs' algorithm.  A vertex entry is worth twice its weight when it is
 * compared with a blossom entry, so every entry is ordered by one key.
 */
module Todos {
  import opened Wrappers

  datatype Todo = Vertex(w: nat, u: nat) | Blossom(w: nat, u: nat, v: nat)

  /** The number an entry is ordered by: 2·w for a vertex, w for a blossom. */
  function Key(t: Todo): nat
  {
    match t
    case Vertex(w, _) => 2 * w
    case Blossom(w, _, _) => w
  }

  /**
   * `partial_cmp`: two vertices or two blossoms compare their weights,
   * a vertex against a blossom compares 2·w1 with w2, and a blossom against
   * a vertex compares w1 with 2·w2.  It is always defined, and it orders
   * entries by `Key`.
   */
  function PartialCmp(a: Todo, b: Todo): (r: Option<Ordering>)
    ensures r == Some(CompareNat(Key(a), Key(b)))
  {
    match (a, b)
    case (Vertex(w1, _), Vertex(w2, _)) => Some(CompareNat(w1, w2))
    case (Vertex(w1, _), Blossom(w2, _, _)) => Some(CompareNat(w1 + w1, w2))
    case (Blossom(w1, _, _), Vertex(w2, _)) => Some(CompareNat(w1, w2 + w2))
    case (Blossom(w1, _, _), Blossom(w2, _, _)) => Some(CompareNat(w1, w2))
  }

  /** `cmp`: `partial_cmp`, or Equal where it is undefined. */
  function Cmp(a: Todo, b: Todo): (r: Ordering)
    ensures PartialCmp(a, b).None? ==> r == Equal
    ensures PartialCmp(a, b).Some? ==> r == PartialCmp(a, b).value
    ensures r == Less <==> Key(a) < Key(b)
  {
    PartialCmp(a, b).UnwrapOr(Equal)
  }

  /** Entries of the same kind compare by weight alone. */
  lemma CmpSameKind(a: Todo, b: Todo)
    requires a.Vertex? == b.Vertex?
    ensures Cmp(a, b) == CompareNat(a.w, b.w)
  {
  }

  /** `Cmp` is a total preorder: antisymmetric up to Equal, and transitive. */
  lemma CmpTotalPreorder(a: Todo, b: Todo, c: Todo)
    ensures Cmp(b, a) == Cmp(a, b).Reverse()
    ensures Cmp(a, b) != Greater && Cmp(b, c) != Greater ==> Cmp(a, c) != Greater
  {
  }

  /**
   * `eq`: two vertices are equal when weight and vertex agree, two blossoms
   * when the weights agree and the endpoints agree as an unordered pair; a
   * vertex never equals a blossom.
   */
  function Eq(a: Todo, b: Todo): (r: bool)
    ensures a.Vertex? != b.Vertex? ==> !r
    ensures a.Vertex? && b.Vertex? ==> (r <==> a == b)
    ensures a.Blossom? && b.Blossom? ==> (r <==> a == b || a == Blossom(b.w, b.v, b.u))
  {
    match (a, b)
    case (Vertex(w1, u), Vertex(w2, v)) => w1 == w2 && u == v
    case (Blossom(w1, u, v), Blossom(w2, x, y)) => w1 == w2 && ((u == x && v == y) || (u == y && v == x))
    case _ => false
  }

  /** `Eq` is an equivalence relation, and equal entries compare Equal. */
  lemma EqEquivalence(a: Todo, b: Todo, c: Todo)
    ensures Eq(a, a)
    ensures Eq(a, b) ==> Eq(b, a)
    ensures Eq(a, b) && Eq(b, c) ==> Eq(a, c)
    ensures Eq(a, b) ==> Cmp(a, b) == Equal
  {
  }

  /** The converse fails: entries with the same key need not be equal. */
  lemma CmpEqualNotEq()
    ensures Cmp(Vertex(1, 0), Blossom(2, 0, 1)) == Equal && !Eq(Vertex(1, 0), Blossom(2, 0, 1))
    ensures Cmp(Vertex(1, 0), Vertex(1, 1)) == Equal && !Eq(Vertex(1, 0), Vertex(1, 1))
  {
  }
}
