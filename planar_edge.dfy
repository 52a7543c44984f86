/**
 * `PlanarEdge` (src/structure/graph/planar/planar_edge.rs): a directed edge
 * of an embedded graph that also knows the faces on its left and right.
 */
module PlanarEdges {
  import opened Wrappers
  import Text
  import Edges

  datatype PlanarEdge = PlanarEdge(from: nat, to: nat, weight: nat, left: nat, right: nat)

  /**
   * `rotate_right`: the dual edge crossing e, from e's left face to its right
   * face, with e's head on its left and e's tail on its right.
   */
  function RotateRight(e: PlanarEdge): (r: PlanarEdge)
    ensures r.from == e.left && r.to == e.right && r.left == e.to && r.right == e.from
    ensures r.weight == e.weight
  {
    PlanarEdge(e.left, e.right, e.weight, e.to, e.from)
  }

  /** `reverse`: endpoints swap, and so do the faces. */
  function Reverse(e: PlanarEdge): (r: PlanarEdge)
    ensures r.from == e.to && r.to == e.from && r.left == e.right && r.right == e.left
    ensures r.weight == e.weight
  {
    PlanarEdge(e.to, e.from, e.weight, e.right, e.left)
  }

  lemma ReverseInvolution(e: PlanarEdge)
    ensures Reverse(Reverse(e)) == e
  {
  }

  /** Rotating twice turns an edge around; four rotations give it back. */
  lemma RotateTwiceIsReverse(e: PlanarEdge)
    ensures RotateRight(RotateRight(e)) == Reverse(e)
    ensures RotateRight(RotateRight(RotateRight(RotateRight(e)))) == e
  {
  }

  /** Rotation commutes with reversal. */
  lemma RotateReverse(e: PlanarEdge)
    ensures RotateRight(Reverse(e)) == Reverse(RotateRight(e))
  {
  }

  /**
   * `subdivide(middle)`: both halves keep the faces; the first half keeps
   * the weight and the second gets weight 0.
   */
  function Subdivide(e: PlanarEdge, middle: nat): (r: (PlanarEdge, PlanarEdge))
    ensures r.0 == PlanarEdge(e.from, middle, e.weight, e.left, e.right)
    ensures r.1 == PlanarEdge(middle, e.to, 0, e.left, e.right)
  {
    (e.(to := middle), PlanarEdge(middle, e.to, 0, e.left, e.right))
  }

  /** The two halves of a subdivision form a path from e.from to e.to of e's weight. */
  lemma SubdivideIsPath(e: PlanarEdge, middle: nat)
    ensures var (a, b) := Subdivide(e, middle);
      a.from == e.from && a.to == b.from && b.to == e.to && a.weight + b.weight == e.weight
  {
  }

  /** `shift_by(offset)`: both endpoints move by offset (modulo 2^64); nothing else changes. */
  function ShiftBy(e: PlanarEdge, offset: int): (r: PlanarEdge)
    requires e.from <= Text.U64_MAX && e.to <= Text.U64_MAX
    requires Edges.I64_MIN <= offset <= Edges.I64_MAX
    requires Edges.I64_MIN <= Edges.AsI64(e.from) + offset <= Edges.I64_MAX
    requires Edges.I64_MIN <= Edges.AsI64(e.to) + offset <= Edges.I64_MAX
    ensures r.from == (e.from + offset) % Edges.TWO_64 && r.to == (e.to + offset) % Edges.TWO_64
    ensures r.weight == e.weight && r.left == e.left && r.right == e.right
  {
    e.(from := Edges.ShiftIndex(e.from, offset), to := Edges.ShiftIndex(e.to, offset))
  }

  /** The comparison key: the tuple (from, to, left, right, weight). */
  function Key(e: PlanarEdge): seq<nat>
  {
    [e.from, e.to, e.left, e.right, e.weight]
  }

  /** `Ord::cmp`: lexicographic on (from, to, left, right, weight). */
  function Cmp(a: PlanarEdge, b: PlanarEdge): (r: Ordering)
    ensures r == Equal <==> a == b
    ensures a.from != b.from ==> (r == Less <==> a.from < b.from)
    ensures a.from == b.from && a.to != b.to ==> (r == Less <==> a.to < b.to)
    ensures a.from == b.from && a.to == b.to && a.left != b.left ==> (r == Less <==> a.left < b.left)
    ensures a.from == b.from && a.to == b.to && a.left == b.left && a.right != b.right ==>
      (r == Less <==> a.right < b.right)
    ensures a.from == b.from && a.to == b.to && a.left == b.left && a.right == b.right && a.weight != b.weight ==>
      (r == Less <==> a.weight < b.weight)
  {
    var r := LexCompare(Key(a), Key(b));
    assert Key(a) == Key(b) ==> a == b by {
      if Key(a) == Key(b) {
        assert Key(a)[0] == Key(b)[0] && Key(a)[1] == Key(b)[1] && Key(a)[2] == Key(b)[2];
        assert Key(a)[3] == Key(b)[3] && Key(a)[4] == Key(b)[4];
      }
    }
    assert Key(a)[..1] == Key(b)[..1] <== a.from == b.from;
    assert Key(a)[..2] == Key(b)[..2] <== a.from == b.from && a.to == b.to;
    assert Key(a)[..3] == Key(b)[..3] <== a.from == b.from && a.to == b.to && a.left == b.left;
    assert Key(a)[..4] == Key(b)[..4] <== a.from == b.from && a.to == b.to && a.left == b.left && a.right == b.right;
    r
  }

  /** `Cmp` is a total order: antisymmetric and transitive. */
  lemma CmpTotalOrder(a: PlanarEdge, b: PlanarEdge, c: PlanarEdge)
    ensures Cmp(b, a) == Cmp(a, b).Reverse()
    ensures Cmp(a, b) != Greater && Cmp(b, c) != Greater ==> Cmp(a, c) != Greater
  {
    LexCompareReverse(Key(a), Key(b));
    if Cmp(a, b) != Greater && Cmp(b, c) != Greater {
      LexCompareTransitive(Key(a), Key(b), Key(c));
    }
  }

  const NOTHING_MSG := "Expected an unsigned integer here, but found nothing!"
  const UNSIGNED_MSG := "Could not parse as an unsigned integer!"

  /** The first k pieces are present and each parses as a u64. */
  predicate Parsed(ws: seq<string>, k: nat)
  {
    k <= |ws| && forall j :: 0 <= j < k ==> Text.ParseU64(ws[j]).Some?
  }

  /**
   * `from_str`: four unsigned fields from, to, left, right separated by
   * single spaces; the fifth is the weight, 1 when absent or unparsable.
   * The first field that is missing gives NOTHING_MSG, the first that does
   * not parse gives UNSIGNED_MSG.
   */
  function FromStr(s: string): (r: Result<PlanarEdge, string>)
    ensures var ws := Text.Split(s, ' ');
      && (r.Ok? <==> (|ws| >= 4 && Text.ParseU64(ws[0]).Some? && Text.ParseU64(ws[1]).Some?
                            && Text.ParseU64(ws[2]).Some? && Text.ParseU64(ws[3]).Some?))
      && (r.Ok? ==> r.value.from == Text.ParseU64(ws[0]).value && r.value.to == Text.ParseU64(ws[1]).value
                    && r.value.left == Text.ParseU64(ws[2]).value && r.value.right == Text.ParseU64(ws[3]).value
                    && r.value.weight == Edges.WeightOrOne(Edges.Next(ws, 4)))
    ensures var ws := Text.Split(s, ' ');
      && (Text.ParseU64(ws[0]).None? ==> r == Err(UNSIGNED_MSG))
      && (Parsed(ws, 1) && |ws| == 1 ==> r == Err(NOTHING_MSG))
      && (Parsed(ws, 1) && |ws| > 1 && Text.ParseU64(ws[1]).None? ==> r == Err(UNSIGNED_MSG))
      && (Parsed(ws, 2) && |ws| == 2 ==> r == Err(NOTHING_MSG))
      && (Parsed(ws, 2) && |ws| > 2 && Text.ParseU64(ws[2]).None? ==> r == Err(UNSIGNED_MSG))
      && (Parsed(ws, 3) && |ws| == 3 ==> r == Err(NOTHING_MSG))
      && (Parsed(ws, 3) && |ws| > 3 && Text.ParseU64(ws[3]).None? ==> r == Err(UNSIGNED_MSG))
  {
    var ws := Text.Split(s, ' ');
    match Edges.ParseField(Edges.Next(ws, 0), NOTHING_MSG, UNSIGNED_MSG)
    case Err(m) => Err(m)
    case Ok(from) =>
      match Edges.ParseField(Edges.Next(ws, 1), NOTHING_MSG, UNSIGNED_MSG)
      case Err(m) => Err(m)
      case Ok(to) =>
        match Edges.ParseField(Edges.Next(ws, 2), NOTHING_MSG, UNSIGNED_MSG)
        case Err(m) => Err(m)
        case Ok(left) =>
          match Edges.ParseField(Edges.Next(ws, 3), NOTHING_MSG, UNSIGNED_MSG)
          case Err(m) => Err(m)
          case Ok(right) => Ok(PlanarEdge(from, to, Edges.WeightOrOne(Edges.Next(ws, 4)), left, right))
  }

  /** The edge as a "from to left right weight" line. */
  function Format(e: PlanarEdge): string
  {
    Text.Fields([e.from, e.to, e.left, e.right, e.weight])
  }

  /** Parsing a formatted edge gives the edge back. */
  lemma FromStrFormat(e: PlanarEdge)
    requires e.from <= Text.U64_MAX && e.to <= Text.U64_MAX && e.weight <= Text.U64_MAX
    requires e.left <= Text.U64_MAX && e.right <= Text.U64_MAX
    ensures FromStr(Format(e)) == Ok(e)
  {
    var nums := [e.from, e.to, e.left, e.right, e.weight];
    Text.SplitFields(nums);
    var ws := Text.Split(Format(e), ' ');
    assert |ws| == 5 && forall i :: 0 <= i < 5 ==> ws[i] == Text.NatToString(nums[i]);
    Text.ParseNatToString(e.from);
    Text.ParseNatToString(e.to);
    Text.ParseNatToString(e.left);
    Text.ParseNatToString(e.right);
    Text.ParseNatToString(e.weight);
  }

  /** The `Edge` dictionary of `PlanarEdge`. */
  function Ops(): Edges.EdgeOps<PlanarEdge>
  {
    Edges.EdgeOps((e: PlanarEdge) => e.from, (e: PlanarEdge) => e.to, (e: PlanarEdge) => e.weight, Reverse)
  }

  lemma OpsLawful()
    ensures Edges.Lawful(Ops())
  {
  }
}
