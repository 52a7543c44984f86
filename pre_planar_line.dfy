/** `PrePlanarLine` (src/structure/planar/pre_planar_line.rs): a line whose faces are not yet known. */
module PrePlanarLines {
  import opened Wrappers
  import Text
  import Edges
  import PlanarLines

  datatype PrePlanarLine = PrePlanarLine(from: nat, to: nat, weight: nat, left: Option<nat>, right: Option<nat>)

  /** `reverse`: endpoints and faces swap. */
  function Reverse(l: PrePlanarLine): (r: PrePlanarLine)
    ensures r.from == l.to && r.to == l.from && r.left == l.right && r.right == l.left
    ensures r.weight == l.weight
  {
    PrePlanarLine(l.to, l.from, l.weight, l.right, l.left)
  }

  lemma ReverseInvolution(l: PrePlanarLine)
    ensures Reverse(Reverse(l)) == l
  {
  }

  /** `planarize`: both faces unwrapped, everything else copied; an unset face panics. */
  function Planarize(l: PrePlanarLine): (r: PlanarLines.Line)
    requires l.left.Some? && l.right.Some?
    ensures r.from == l.from && r.to == l.to && r.weight == l.weight
    ensures l.left == Some(r.left) && l.right == Some(r.right)
  {
    PlanarLines.Line(l.from, l.to, l.weight, l.left.value, l.right.value)
  }

  /** Planarizing commutes with reversal. */
  lemma PlanarizeReverse(l: PrePlanarLine)
    requires l.left.Some? && l.right.Some?
    ensures Planarize(Reverse(l)) == PlanarLines.Reverse(Planarize(l))
  {
  }

  /**
   * `from_str`: "from to [weight]" on single spaces, with both faces None.
   * A missing id and an unparsable id are reported separately for each
   * endpoint; a missing weight is 1, an unparsable one is an error.
   */
  function FromStr(s: string): (r: Result<PrePlanarLine, string>)
    ensures var ws := Text.Split(s, ' ');
      && (r.Ok? <==> |ws| >= 2 && Text.ParseU64(ws[0]).Some? && Text.ParseU64(ws[1]).Some?
                     && (|ws| >= 3 ==> Text.ParseU64(ws[2]).Some?))
      && (r.Ok? ==> r.value.left.None? && r.value.right.None?
                    && r.value.from == Text.ParseU64(ws[0]).value && r.value.to == Text.ParseU64(ws[1]).value
                    && r.value.weight == (if |ws| >= 3 then Text.ParseU64(ws[2]).value else 1))
      && (Text.ParseU64(ws[0]).None? ==> r == Err("Could not parse the first vertex id"))
      && (Text.ParseU64(ws[0]).Some? && |ws| < 2 ==> r == Err("Could not find the second vertex id"))
      && (Text.ParseU64(ws[0]).Some? && |ws| >= 2 && Text.ParseU64(ws[1]).None? ==>
            r == Err("Could not parse the second vertex id"))
      && (Text.ParseU64(ws[0]).Some? && |ws| >= 3 && Text.ParseU64(ws[1]).Some? && Text.ParseU64(ws[2]).None? ==>
            r == Err("Could not parse the weight"))
  {
    var ws := Text.Split(s, ' ');
    match Edges.ParseField(Edges.Next(ws, 0), "Could not find the first vertex id", "Could not parse the first vertex id")
    case Err(m) => Err(m)
    case Ok(from) =>
      match Edges.ParseField(Edges.Next(ws, 1), "Could not find the second vertex id", "Could not parse the second vertex id")
      case Err(m) => Err(m)
      case Ok(to) =>
        match Edges.StrictWeight(Edges.Next(ws, 2), "Could not parse the weight")
        case Err(m) => Err(m)
        case Ok(w) => Ok(PrePlanarLine(from, to, w, None, None))
  }

  /** The line as "from to weight". */
  function Format(l: PrePlanarLine): string
  {
    Text.Fields([l.from, l.to, l.weight])
  }

  /** Parsing a formatted line gives it back with its faces forgotten. */
  lemma FromStrFormat(l: PrePlanarLine)
    requires l.from <= Text.U64_MAX && l.to <= Text.U64_MAX && l.weight <= Text.U64_MAX
    ensures FromStr(Format(l)) == Ok(l.(left := None, right := None))
  {
    Text.SplitFields([l.from, l.to, l.weight]);
    Text.ParseNatToString(l.from);
    Text.ParseNatToString(l.to);
    Text.ParseNatToString(l.weight);
  }
}
