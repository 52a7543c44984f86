/**
 * `Point` (src/structure/graph/planar/point.rs): a vertex of an embedded
 * graph, with its id and its coordinates.  Coordinates are `f64` in the
 * source; here they are reals, and reading one is a parameter of the
 * parser (floating-point parsing is not part of this model).
 */
module Points {
  import opened Wrappers
  import Text
  import Edges

  datatype Point = Point(id: nat, x: real, y: real)

  /**
   * `from_str`: "id x y" split on single spaces.  Each field reports, in
   * this order, whether it is missing or does not parse; pieces after the
   * third are ignored.
   */
  function FromStr(s: string, parseF64: string -> Option<real>): (r: Result<Point, string>)
    ensures var ws := Text.Split(s, ' ');
      r.Ok? <==> |ws| >= 3 && Text.ParseU64(ws[0]).Some? && parseF64(ws[1]).Some? && parseF64(ws[2]).Some?
    ensures var ws := Text.Split(s, ' ');
      r.Ok? ==> r.value == Point(Text.ParseU64(ws[0]).value, parseF64(ws[1]).value, parseF64(ws[2]).value)
    ensures var ws := Text.Split(s, ' ');
      Text.ParseU64(ws[0]).None? ==> r == Err("Could not parse the id")
    ensures var ws := Text.Split(s, ' ');
      Text.ParseU64(ws[0]).Some? && |ws| < 2 ==> r == Err("Could not find the x coordinate")
    ensures var ws := Text.Split(s, ' ');
      Text.ParseU64(ws[0]).Some? && |ws| >= 2 && parseF64(ws[1]).None? ==> r == Err("Could not parse the x coordinate")
    ensures var ws := Text.Split(s, ' ');
      Text.ParseU64(ws[0]).Some? && |ws| == 2 && parseF64(ws[1]).Some? ==> r == Err("Could not find the y coordinate")
    ensures var ws := Text.Split(s, ' ');
      Text.ParseU64(ws[0]).Some? && |ws| >= 3 && parseF64(ws[1]).Some? && parseF64(ws[2]).None? ==>
        r == Err("Could not parse the y coordinate")
  {
    var ws := Text.Split(s, ' ');
    match Edges.ParseField(Edges.Next(ws, 0), "Could not find the id", "Could not parse the id")
    case Err(e) => Err(e)
    case Ok(id) =>
      match Coordinate(Edges.Next(ws, 1), parseF64, "Could not find the x coordinate", "Could not parse the x coordinate")
      case Err(e) => Err(e)
      case Ok(x) =>
        match Coordinate(Edges.Next(ws, 2), parseF64, "Could not find the y coordinate", "Could not parse the y coordinate")
        case Err(e) => Err(e)
        case Ok(y) => Ok(Point(id, x, y))
  }

  /** One coordinate field: missing and unparsable are told apart. */
  function Coordinate(tok: Option<string>, parseF64: string -> Option<real>, missing: string, bad: string): (r: Result<real, string>)
    ensures tok.None? ==> r == Err(missing)
    ensures tok.Some? ==> (r.Ok? <==> parseF64(tok.value).Some?)
    ensures tok.Some? && r.Ok? ==> r.value == parseF64(tok.value).value
    ensures tok.Some? && r.Err? ==> r.error == bad
  {
    match tok
    case None => Err(missing)
    case Some(t) =>
      match parseF64(t)
      case None => Err(bad)
      case Some(c) => Ok(c)
  }
}
