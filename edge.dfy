/**
 * The `Edge` trait and `BasicEdge` (src/structure/graph/edge.rs), with the
 * token helpers the edge parsers of every edge type share.
 */
module Edges {
  import opened Wrappers
  import Text

  const I64_MIN: int := -0x8000_0000_0000_0000
  const I64_MAX: int := 0x7FFF_FFFF_FFFF_FFFF
  const TWO_64: int := 0x1_0000_0000_0000_0000

  /**
   * The `Edge` trait passed as a dictionary: the endpoints, the weight and
   * the reversal of an edge type.  Generic graphs store one of these.
   */
  datatype EdgeOps<!E> = EdgeOps(from: E -> nat, to: E -> nat, weight: E -> nat, reverse: E -> E)

  /** What every implementation of the trait promises: reversal swaps the endpoints and keeps the weight. */
  ghost predicate Lawful<E(!new)>(ops: EdgeOps<E>)
  {
    forall e: E {:trigger ops.reverse(e)} ::
      ops.from(ops.reverse(e)) == ops.to(e) && ops.to(ops.reverse(e)) == ops.from(e)
      && ops.weight(ops.reverse(e)) == ops.weight(e)
  }

  datatype BasicEdge = BasicEdge(from: nat, to: nat, weight: nat)

  /** `BasicEdge::new`. */
  function New(from: nat, to: nat, weight: nat): (e: BasicEdge)
    ensures e.from == from && e.to == to && e.weight == weight
  {
    BasicEdge(from, to, weight)
  }

  /** `reverse`: the same edge walked the other way. */
  function Reverse(e: BasicEdge): (r: BasicEdge)
    ensures r.from == e.to && r.to == e.from && r.weight == e.weight
  {
    BasicEdge(e.to, e.from, e.weight)
  }

  lemma ReverseInvolution(e: BasicEdge)
    ensures Reverse(Reverse(e)) == e
  {
  }

  /** `subdivide(middle)`: from→middle and middle→to, both of weight 0. */
  function Subdivide(e: BasicEdge, middle: nat): (r: (BasicEdge, BasicEdge))
    ensures r.0.from == e.from && r.0.to == middle && r.1.from == middle && r.1.to == e.to
    ensures r.0.weight == 0 && r.1.weight == 0
  {
    (BasicEdge(e.from, middle, 0), BasicEdge(middle, e.to, 0))
  }

  /** The `Edge` dictionary of `BasicEdge`. */
  function Ops(): EdgeOps<BasicEdge>
  {
    EdgeOps((e: BasicEdge) => e.from, (e: BasicEdge) => e.to, (e: BasicEdge) => e.weight, Reverse)
  }

  lemma OpsLawful()
    ensures Lawful(Ops())
  {
  }

  /** The i-th call of `next()` on the pieces of a `split`. */
  function Next(pieces: seq<string>, i: nat): (r: Option<string>)
    ensures r.Some? <==> i < |pieces|
  {
    if i < |pieces| then Some(pieces[i]) else None
  }

  /**
   * `next().ok_or(missing)?.parse().or(Err(bad))?` for an unsigned field:
   * a missing piece or a piece that is not a u64 is an error with the given message.
   */
  function ParseField(tok: Option<string>, missing: string, bad: string): (r: Result<nat, string>)
    ensures tok.None? ==> r == Err(missing)
    ensures tok.Some? && Text.ParseU64(tok.value).None? ==> r == Err(bad)
    ensures r.Ok? <==> tok.Some? && Text.ParseU64(tok.value).Some?
    ensures r.Ok? ==> r.value == Text.ParseU64(tok.value).value
  {
    match tok
    case None => Err(missing)
    case Some(t) =>
      match Text.ParseU64(t)
      case None => Err(bad)
      case Some(x) => Ok(x)
  }

  /**
   * `W::from_str(next().unwrap_or("1")).unwrap_or(1)`: the weight when
   * present and parsable, otherwise 1.
   */
  function WeightOrOne(tok: Option<string>): (w: nat)
    ensures tok.Some? && Text.ParseU64(tok.value).Some? ==> w == Text.ParseU64(tok.value).value
    ensures tok.None? || Text.ParseU64(tok.value).None? ==> w == 1
  {
    Text.ParseU64(tok.UnwrapOr("1")).UnwrapOr(1)
  }

  /**
   * `next().get_or_insert("1").parse()` with an error on failure: a missing
   * weight is 1, a present weight must parse.
   */
  function StrictWeight(tok: Option<string>, bad: string): (r: Result<nat, string>)
    ensures tok.None? ==> r == Ok(1)
    ensures tok.Some? ==> (r.Ok? <==> Text.ParseU64(tok.value).Some?)
    ensures tok.Some? && r.Ok? ==> r.value == Text.ParseU64(tok.value).value
    ensures r.Err? ==> r.error == bad
  {
    match Text.ParseU64(tok.UnwrapOr("1"))
    case None => Err(bad)
    case Some(w) => Ok(w)
  }

  const NOTHING_MSG := "Expected an unsigned integer here, but found nothing!"
  const UNSIGNED_MSG := "Could not parse as an unsigned integer!"

  /**
   * `BasicEdge::from_str`: the line split on single spaces; the first two
   * pieces must be unsigned integers, the third is the weight (1 when it is
   * absent or does not parse); further pieces are ignored.
   */
  function FromStr(s: string): (r: Result<BasicEdge, string>)
    ensures var ws := Text.Split(s, ' ');
      && (r.Ok? <==> |ws| >= 2 && Text.ParseU64(ws[0]).Some? && Text.ParseU64(ws[1]).Some?)
      && (r.Ok? ==> r.value.from == Text.ParseU64(ws[0]).value && r.value.to == Text.ParseU64(ws[1]).value
                    && r.value.weight == WeightOrOne(Next(ws, 2)))
      && (Text.ParseU64(ws[0]).None? ==> r == Err(UNSIGNED_MSG))
      && (Text.ParseU64(ws[0]).Some? && |ws| < 2 ==> r == Err(NOTHING_MSG))
      && (Text.ParseU64(ws[0]).Some? && |ws| >= 2 && Text.ParseU64(ws[1]).None? ==> r == Err(UNSIGNED_MSG))
  {
    var ws := Text.Split(s, ' ');
    match ParseField(Next(ws, 0), NOTHING_MSG, UNSIGNED_MSG)
    case Err(m) => Err(m)
    case Ok(u) =>
      match ParseField(Next(ws, 1), NOTHING_MSG, UNSIGNED_MSG)
      case Err(m) => Err(m)
      case Ok(v) => Ok(BasicEdge(u, v, WeightOrOne(Next(ws, 2))))
  }

  /** The edge as a "from to weight" line. */
  function Format(e: BasicEdge): string
  {
    Text.Fields([e.from, e.to, e.weight])
  }

  /** Parsing a formatted edge gives the edge back. */
  lemma FromStrFormat(e: BasicEdge)
    requires e.from <= Text.U64_MAX && e.to <= Text.U64_MAX && e.weight <= Text.U64_MAX
    ensures FromStr(Format(e)) == Ok(e)
  {
    Text.SplitFields([e.from, e.to, e.weight]);
    Text.ParseNatToString(e.from);
    Text.ParseNatToString(e.to);
    Text.ParseNatToString(e.weight);
  }

  /** A "u v" line without weight gives weight 1. */
  lemma FromStrDefaultWeight(u: nat, v: nat)
    requires u <= Text.U64_MAX && v <= Text.U64_MAX
    ensures FromStr(Text.Fields([u, v])) == Ok(BasicEdge(u, v, 1))
  {
    Text.SplitFields([u, v]);
    Text.ParseNatToString(u);
    Text.ParseNatToString(v);
  }

  /** Rust's `x as i64` on a u64: values above `i64::MAX` wrap to negative. */
  function AsI64(x: nat): (r: int)
    requires x <= Text.U64_MAX
    ensures I64_MIN <= r <= I64_MAX
    ensures r % TWO_64 == x
  {
    if x <= I64_MAX then x else x - TWO_64
  }

  /** Rust's `i as usize` on an i64: negative values wrap to large ones. */
  function AsUsize(i: int): (r: nat)
    requires I64_MIN <= i <= I64_MAX
    ensures r <= Text.U64_MAX
    ensures r == i % TWO_64
  {
    if i >= 0 then i else i + TWO_64
  }

  /**
   * `(x as i64 + offset) as usize`, the index arithmetic of `shift_by`.
   * The i64 addition must not overflow (a panic in a debug build); the
   * result is the sum taken modulo 2^64.
   */
  function ShiftIndex(x: nat, offset: int): (r: nat)
    requires x <= Text.U64_MAX && I64_MIN <= offset <= I64_MAX
    requires I64_MIN <= AsI64(x) + offset <= I64_MAX
    ensures r <= Text.U64_MAX
    ensures r == (x + offset) % TWO_64
    ensures 0 <= x + offset <= I64_MAX ==> r == x + offset
  {
    AsUsize(AsI64(x) + offset)
  }
}
