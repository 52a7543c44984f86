/** `Line` (src/structure/planar/line.rs): a stored edge of the older planar graph, with its faces. */
module PlanarLines {

  datatype Line = Line(from: nat, to: nat, weight: nat, left: nat, right: nat)

  /** `reverse`: from/to swap, left/right swap, the weight stays. */
  function Reverse(l: Line): (r: Line)
    ensures r.from == l.to && r.to == l.from
    ensures r.left == l.right && r.right == l.left
    ensures r.weight == l.weight
  {
    Line(l.to, l.from, l.weight, l.right, l.left)
  }

  lemma ReverseInvolution(l: Line)
    ensures Reverse(Reverse(l)) == l
  {
  }
}
