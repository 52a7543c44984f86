/**
 * `PlanarEdgeImpl` (src/structure/planar/planar_edge.rs), the planar edge
 * of the older `structure::planar` API.
 */
module LegacyPlanarEdges {
  import opened Wrappers
  import Text
  import Edges
  import PlanarEdges

  datatype PlanarEdgeImpl = PlanarEdgeImpl(from: nat, to: nat, weight: nat, left: nat, right: nat)

  /** `reverse`: endpoints and faces swap, the weight stays. */
  function Reverse(e: PlanarEdgeImpl): (r: PlanarEdgeImpl)
    ensures r.from == e.to && r.to == e.from && r.left == e.right && r.right == e.left
    ensures r.weight == e.weight
  {
    PlanarEdgeImpl(e.to, e.from, e.weight, e.right, e.left)
  }

  lemma ReverseInvolution(e: PlanarEdgeImpl)
    ensures Reverse(Reverse(e)) == e
  {
  }

  /** `left()`, `right()` and `weight()`: the stored fields, read through the edge or its reverse. */
  lemma AccessorsOfReverse(e: PlanarEdgeImpl)
    ensures Reverse(e).left == e.right && Reverse(e).right == e.left && Reverse(e).weight == e.weight
  {
  }

  const NOTHING_MSG := "Expected an unsigned integer here, but found nothing!"
  const UNSIGNED_MSG := "Could not parse as an unsigned integer!"

  /**
   * `from_str`: from, to, left and right must be the first four pieces on
   * single spaces, all unsigned; the fifth is the weight, 1 when absent or
   * unparsable.  The first field that is missing gives NOTHING_MSG, the
   * first that does not parse gives UNSIGNED_MSG.
   */
  function FromStr(s: string): (r: Result<PlanarEdgeImpl, string>)
    ensures var ws := Text.Split(s, ' ');
      && (r.Ok? <==> (|ws| >= 4 && Text.ParseU64(ws[0]).Some? && Text.ParseU64(ws[1]).Some?
                            && Text.ParseU64(ws[2]).Some? && Text.ParseU64(ws[3]).Some?))
      && (r.Ok? ==> r.value.from == Text.ParseU64(ws[0]).value && r.value.to == Text.ParseU64(ws[1]).value
                    && r.value.left == Text.ParseU64(ws[2]).value && r.value.right == Text.ParseU64(ws[3]).value
                    && r.value.weight == Edges.WeightOrOne(Edges.Next(ws, 4)))
    ensures var ws := Text.Split(s, ' ');
      && (Text.ParseU64(ws[0]).None? ==> r == Err(UNSIGNED_MSG))
      && (PlanarEdges.Parsed(ws, 1) && |ws| == 1 ==> r == Err(NOTHING_MSG))
      && (PlanarEdges.Parsed(ws, 1) && |ws| > 1 && Text.ParseU64(ws[1]).None? ==> r == Err(UNSIGNED_MSG))
      && (PlanarEdges.Parsed(ws, 2) && |ws| == 2 ==> r == Err(NOTHING_MSG))
      && (PlanarEdges.Parsed(ws, 2) && |ws| > 2 && Text.ParseU64(ws[2]).None? ==> r == Err(UNSIGNED_MSG))
      && (PlanarEdges.Parsed(ws, 3) && |ws| == 3 ==> r == Err(NOTHING_MSG))
      && (PlanarEdges.Parsed(ws, 3) && |ws| > 3 && Text.ParseU64(ws[3]).None? ==> r == Err(UNSIGNED_MSG))
  {
    var ws := Text.Split(s, ' ');
    match Edges.ParseField(Edges.Next(ws, 0), NOTHING_MSG, UNSIGNED_MSG)
    case Err(m) => Err(m)
    case Ok(from) =>
      match Edges.ParseField(Edges.Next(ws, 1), NOTHING_MSG, UNSIGNED_MSG)
      case Err(m) => Err(m)
      case Ok(to) =>
        match Edges.ParseField(Edges.Next(ws, 2), NOTHING_MSG, UNSIGNED_MSG)
        case Err(m) => Err(m)
        case Ok(left) =>
          match Edges.ParseField(Edges.Next(ws, 3), NOTHING_MSG, UNSIGNED_MSG)
          case Err(m) => Err(m)
          case Ok(right) => Ok(PlanarEdgeImpl(from, to, Edges.WeightOrOne(Edges.Next(ws, 4)), left, right))
  }

  /** The edge as a "from to left right weight" line. */
  function Format(e: PlanarEdgeImpl): string
  {
    Text.Fields([e.from, e.to, e.left, e.right, e.weight])
  }

  /** Parsing a formatted edge gives the edge back. */
  lemma FromStrFormat(e: PlanarEdgeImpl)
    requires e.from <= Text.U64_MAX && e.to <= Text.U64_MAX && e.weight <= Text.U64_MAX
    requires e.left <= Text.U64_MAX && e.right <= Text.U64_MAX
    ensures FromStr(Format(e)) == Ok(e)
  {
    var nums := [e.from, e.to, e.left, e.right, e.weight];
    Text.SplitFields(nums);
    var ws := Text.Split(Format(e), ' ');
    assert |ws| == 5 && forall i :: 0 <= i < 5 ==> ws[i] == Text.NatToString(nums[i]);
    Text.ParseNatToString(e.from);
    Text.ParseNatToString(e.to);
    Text.ParseNatToString(e.left);
    Text.ParseNatToString(e.right);
    Text.ParseNatToString(e.weight);
  }

  /** A line with only four fields gets weight 1. */
  lemma FromStrDefaultWeight(from: nat, to: nat, left: nat, right: nat)
    requires from <= Text.U64_MAX && to <= Text.U64_MAX && left <= Text.U64_MAX && right <= Text.U64_MAX
    ensures FromStr(Text.Fields([from, to, left, right])) == Ok(PlanarEdgeImpl(from, to, 1, left, right))
  {
    Text.SplitFields([from, to, left, right]);
    Text.ParseNatToString(from);
    Text.ParseNatToString(to);
    Text.ParseNatToString(left);
    Text.ParseNatToString(right);
  }
}
