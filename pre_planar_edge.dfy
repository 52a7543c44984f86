/**
 * `PrePlanarEdge` (src/structure/graph/planar/pre_planar_edge.rs): a planar
 * edge whose faces are not yet known.
 */
module PrePlanarEdges {
  import opened Wrappers
  import Text
  import Edges
  import PlanarEdges

  datatype PrePlanarEdge = PrePlanarEdge(from: nat, to: nat, weight: nat, left: Option<nat>, right: Option<nat>)

  /** Both faces have been assigned. */
  predicate Complete(e: PrePlanarEdge)
  {
    e.left.Some? && e.right.Some?
  }

  /** `planarize`: the same edge with both faces unwrapped; an unset face panics. */
  function Planarize(e: PrePlanarEdge): (r: PlanarEdges.PlanarEdge)
    requires Complete(e)
    ensures r.from == e.from && r.to == e.to && r.weight == e.weight
    ensures e.left == Some(r.left) && e.right == Some(r.right)
  {
    PlanarEdges.PlanarEdge(e.from, e.to, e.weight, e.left.value, e.right.value)
  }

  /** `reverse`: endpoints and faces swap, the weight stays. */
  function Reverse(e: PrePlanarEdge): (r: PrePlanarEdge)
    ensures r.from == e.to && r.to == e.from && r.left == e.right && r.right == e.left
    ensures r.weight == e.weight
  {
    PrePlanarEdge(e.to, e.from, e.weight, e.right, e.left)
  }

  lemma ReverseInvolution(e: PrePlanarEdge)
    ensures Reverse(Reverse(e)) == e
  {
  }

  /** Planarizing commutes with reversal. */
  lemma PlanarizeReverse(e: PrePlanarEdge)
    requires Complete(e)
    ensures Complete(Reverse(e))
    ensures Planarize(Reverse(e)) == PlanarEdges.Reverse(Planarize(e))
  {
  }

  /** `subdivide(middle)`: faces kept in both halves; the second half has weight 0. */
  function Subdivide(e: PrePlanarEdge, middle: nat): (r: (PrePlanarEdge, PrePlanarEdge))
    ensures r.0 == PrePlanarEdge(e.from, middle, e.weight, e.left, e.right)
    ensures r.1 == PrePlanarEdge(middle, e.to, 0, e.left, e.right)
  {
    (e.(to := middle), PrePlanarEdge(middle, e.to, 0, e.left, e.right))
  }

  /** Subdividing and then planarizing is planarizing and then subdividing. */
  lemma SubdividePlanarize(e: PrePlanarEdge, middle: nat)
    requires Complete(e)
    ensures Complete(Subdivide(e, middle).0) && Complete(Subdivide(e, middle).1)
    ensures Planarize(Subdivide(e, middle).0) == PlanarEdges.Subdivide(Planarize(e), middle).0
    ensures Planarize(Subdivide(e, middle).1) == PlanarEdges.Subdivide(Planarize(e), middle).1
  {
  }

  /** `shift_by(offset)`: only the endpoints move, modulo 2^64. */
  function ShiftBy(e: PrePlanarEdge, offset: int): (r: PrePlanarEdge)
    requires e.from <= Text.U64_MAX && e.to <= Text.U64_MAX
    requires Edges.I64_MIN <= offset <= Edges.I64_MAX
    requires Edges.I64_MIN <= Edges.AsI64(e.from) + offset <= Edges.I64_MAX
    requires Edges.I64_MIN <= Edges.AsI64(e.to) + offset <= Edges.I64_MAX
    ensures r.from == (e.from + offset) % Edges.TWO_64 && r.to == (e.to + offset) % Edges.TWO_64
    ensures r.weight == e.weight && r.left == e.left && r.right == e.right
  {
    e.(from := Edges.ShiftIndex(e.from, offset), to := Edges.ShiftIndex(e.to, offset))
  }

  /** An optional face as a comparison key: None sorts before every Some, as in Rust. */
  function FaceKey(f: Option<nat>): (k: nat)
    ensures f.None? <==> k == 0
    ensures f.Some? ==> k == f.value + 1
  {
    match f
    case None => 0
    case Some(x) => x + 1
  }

  /** The comparison key: the tuple (from, to, left, right, weight). */
  function Key(e: PrePlanarEdge): seq<nat>
  {
    [e.from, e.to, FaceKey(e.left), FaceKey(e.right), e.weight]
  }

  /** `Ord::cmp`: lexicographic on (from, to, left, right, weight), None before Some. */
  function Cmp(a: PrePlanarEdge, b: PrePlanarEdge): (r: Ordering)
    ensures r == Equal <==> a == b
    ensures a.from != b.from ==> (r == Less <==> a.from < b.from)
    ensures a.from == b.from && a.to != b.to ==> (r == Less <==> a.to < b.to)
    ensures a.from == b.from && a.to == b.to && a.left != b.left ==> (r == Less <==> FaceKey(a.left) < FaceKey(b.left))
    ensures a.from == b.from && a.to == b.to && a.left == b.left && a.right != b.right ==>
      (r == Less <==> FaceKey(a.right) < FaceKey(b.right))
    ensures a.from == b.from && a.to == b.to && a.left == b.left && a.right == b.right && a.weight != b.weight ==>
      (r == Less <==> a.weight < b.weight)
  {
    var r := LexCompare(Key(a), Key(b));
    assert Key(a) == Key(b) ==> a == b by {
      if Key(a) == Key(b) {
        assert Key(a)[0] == Key(b)[0] && Key(a)[1] == Key(b)[1] && Key(a)[2] == Key(b)[2];
        assert Key(a)[3] == Key(b)[3] && Key(a)[4] == Key(b)[4];
      }
    }
    assert Key(a)[..1] == Key(b)[..1] <== a.from == b.from;
    assert Key(a)[..2] == Key(b)[..2] <== a.from == b.from && a.to == b.to;
    assert Key(a)[..3] == Key(b)[..3] <== a.from == b.from && a.to == b.to && a.left == b.left;
    assert Key(a)[..4] == Key(b)[..4] <== a.from == b.from && a.to == b.to && a.left == b.left && a.right == b.right;
    r
  }

  /** `Cmp` is a total order: antisymmetric and transitive. */
  lemma CmpTotalOrder(a: PrePlanarEdge, b: PrePlanarEdge, c: PrePlanarEdge)
    ensures Cmp(b, a) == Cmp(a, b).Reverse()
    ensures Cmp(a, b) != Greater && Cmp(b, c) != Greater ==> Cmp(a, c) != Greater
  {
    LexCompareReverse(Key(a), Key(b));
    if Cmp(a, b) != Greater && Cmp(b, c) != Greater {
      LexCompareTransitive(Key(a), Key(b), Key(c));
    }
  }

  /**
   * `from_str`: "from to [weight]" split on single spaces, with both faces
   * None.  A missing id and an unparsable id are reported separately for
   * each endpoint; a missing weight is 1, but a weight that is present and
   * does not parse is an error.
   */
  function FromStr(s: string): (r: Result<PrePlanarEdge, string>)
    ensures var ws := Text.Split(s, ' ');
      && (r.Ok? <==> |ws| >= 2 && Text.ParseU64(ws[0]).Some? && Text.ParseU64(ws[1]).Some?
                     && (|ws| >= 3 ==> Text.ParseU64(ws[2]).Some?))
      && (r.Ok? ==> r.value.left.None? && r.value.right.None?
                    && r.value.from == Text.ParseU64(ws[0]).value && r.value.to == Text.ParseU64(ws[1]).value
                    && r.value.weight == (if |ws| >= 3 then Text.ParseU64(ws[2]).value else 1))
      && (Text.ParseU64(ws[0]).None? ==> r == Err("Could not parse the first vertex id"))
      && (Text.ParseU64(ws[0]).Some? && |ws| < 2 ==> r == Err("Could not find the second vertex id"))
      && (Text.ParseU64(ws[0]).Some? && |ws| >= 2 && Text.ParseU64(ws[1]).None? ==>
            r == Err("Could not parse the second vertex id"))
      && (Text.ParseU64(ws[0]).Some? && |ws| >= 3 && Text.ParseU64(ws[1]).Some? && Text.ParseU64(ws[2]).None? ==>
            r == Err("Could not parse the weight"))
  {
    var ws := Text.Split(s, ' ');
    match Edges.ParseField(Edges.Next(ws, 0), "Could not find the first vertex id", "Could not parse the first vertex id")
    case Err(m) => Err(m)
    case Ok(from) =>
      match Edges.ParseField(Edges.Next(ws, 1), "Could not find the second vertex id", "Could not parse the second vertex id")
      case Err(m) => Err(m)
      case Ok(to) =>
        match Edges.StrictWeight(Edges.Next(ws, 2), "Could not parse the weight")
        case Err(m) => Err(m)
        case Ok(w) => Ok(PrePlanarEdge(from, to, w, None, None))
  }

  /** The edge as a "from to weight" line. */
  function Format(e: PrePlanarEdge): string
  {
    Text.Fields([e.from, e.to, e.weight])
  }

  /** Parsing a formatted edge gives the edge back, with its faces forgotten. */
  lemma FromStrFormat(e: PrePlanarEdge)
    requires e.from <= Text.U64_MAX && e.to <= Text.U64_MAX && e.weight <= Text.U64_MAX
    ensures FromStr(Format(e)) == Ok(e.(left := None, right := None))
  {
    Text.SplitFields([e.from, e.to, e.weight]);
    Text.ParseNatToString(e.from);
    Text.ParseNatToString(e.to);
    Text.ParseNatToString(e.weight);
  }

  /** The `Edge` dictionary of `PrePlanarEdge`. */
  function Ops(): Edges.EdgeOps<PrePlanarEdge>
  {
    Edges.EdgeOps((e: PrePlanarEdge) => e.from, (e: PrePlanarEdge) => e.to, (e: PrePlanarEdge) => e.weight, Reverse)
  }

  lemma OpsLawful()
    ensures Edges.Lawful(Ops())
  {
  }
}
