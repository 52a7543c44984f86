/**
 * `AbstractPlanarEdge<W, S>` (src/structure/graph/planar_edge.rs): one edge
 * type for both stages of planar construction.  The face type S is `usize`
 * for a planar edge and `Option<usize>` for an edge whose faces are not yet
 * known.
 */
module AbstractPlanarEdges {
  import opened Wrappers
  import Text
  import Edges

  datatype AbstractPlanarEdge<S> = AbstractPlanarEdge(from: nat, to: nat, weight: nat, left: S, right: S)

  /** `PlanarEdge<W>`: faces known. */
  type PlanarEdge = AbstractPlanarEdge<nat>

  /** `PrePlanarEdge<W>`: faces optional. */
  type PrePlanarEdge = AbstractPlanarEdge<Option<nat>>

  /** `rotate_right`: from the left face to the right face, crossing the edge. */
  function RotateRight(e: PlanarEdge): (r: PlanarEdge)
    ensures r.from == e.left && r.to == e.right && r.left == e.to && r.right == e.from
    ensures r.weight == e.weight
  {
    AbstractPlanarEdge(e.left, e.right, e.weight, e.to, e.from)
  }

  /** `planarize`: both faces unwrapped; an unset face panics. */
  function Planarize(e: PrePlanarEdge): (r: PlanarEdge)
    requires e.left.Some? && e.right.Some?
    ensures r.from == e.from && r.to == e.to && r.weight == e.weight
    ensures e.left == Some(r.left) && e.right == Some(r.right)
  {
    AbstractPlanarEdge(e.from, e.to, e.weight, e.left.value, e.right.value)
  }

  /** `reverse`: endpoints and faces swap. */
  function Reverse<S>(e: AbstractPlanarEdge<S>): (r: AbstractPlanarEdge<S>)
    ensures r.from == e.to && r.to == e.from && r.left == e.right && r.right == e.left
    ensures r.weight == e.weight
  {
    AbstractPlanarEdge(e.to, e.from, e.weight, e.right, e.left)
  }

  lemma ReverseInvolution<S>(e: AbstractPlanarEdge<S>)
    ensures Reverse(Reverse(e)) == e
  {
  }

  /** Two rotations reverse an edge, four give it back. */
  lemma RotateTwiceIsReverse(e: PlanarEdge)
    ensures RotateRight(RotateRight(e)) == Reverse(e)
    ensures RotateRight(RotateRight(RotateRight(RotateRight(e)))) == e
  {
  }

  /** Planarizing commutes with reversal. */
  lemma PlanarizeReverse(e: PrePlanarEdge)
    requires e.left.Some? && e.right.Some?
    ensures Planarize(Reverse(e)) == Reverse(Planarize(e))
  {
  }

  /** `subdivide(middle)`: faces kept, the second half gets weight 0. */
  function Subdivide<S>(e: AbstractPlanarEdge<S>, middle: nat): (r: (AbstractPlanarEdge<S>, AbstractPlanarEdge<S>))
    ensures r.0 == AbstractPlanarEdge(e.from, middle, e.weight, e.left, e.right)
    ensures r.1 == AbstractPlanarEdge(middle, e.to, 0, e.left, e.right)
  {
    (e.(to := middle), AbstractPlanarEdge(middle, e.to, 0, e.left, e.right))
  }

  /** The halves of a subdivision join at the middle and keep the total weight. */
  lemma SubdivideIsPath<S>(e: AbstractPlanarEdge<S>, middle: nat)
    ensures var (a, b) := Subdivide(e, middle);
      a.from == e.from && a.to == b.from && b.to == e.to && a.weight + b.weight == e.weight
  {
  }

  /** `shift_by(offset)`: only the endpoints move, modulo 2^64. */
  function ShiftBy<S>(e: AbstractPlanarEdge<S>, offset: int): (r: AbstractPlanarEdge<S>)
    requires e.from <= Text.U64_MAX && e.to <= Text.U64_MAX
    requires Edges.I64_MIN <= offset <= Edges.I64_MAX
    requires Edges.I64_MIN <= Edges.AsI64(e.from) + offset <= Edges.I64_MAX
    requires Edges.I64_MIN <= Edges.AsI64(e.to) + offset <= Edges.I64_MAX
    ensures r.from == (e.from + offset) % Edges.TWO_64 && r.to == (e.to + offset) % Edges.TWO_64
    ensures r.weight == e.weight && r.left == e.left && r.right == e.right
  {
    e.(from := Edges.ShiftIndex(e.from, offset), to := Edges.ShiftIndex(e.to, offset))
  }

  /** The order of `usize` faces. */
  function NatFaceKey(f: nat): nat
  {
    f
  }

  /** The order of `Option<usize>` faces: None first. */
  function OptionFaceKey(f: Option<nat>): (k: nat)
    ensures f.None? <==> k == 0
    ensures f.Some? ==> k == f.value + 1
  {
    match f
    case None => 0
    case Some(x) => x + 1
  }

  ghost predicate Injective<S(!new)>(key: S -> nat)
  {
    forall x: S, y: S :: key(x) == key(y) ==> x == y
  }

  lemma FaceKeysInjective()
    ensures Injective(NatFaceKey)
    ensures Injective(OptionFaceKey)
  {
  }

  function Key<S>(e: AbstractPlanarEdge<S>, faceKey: S -> nat): seq<nat>
  {
    [e.from, e.to, faceKey(e.left), faceKey(e.right), e.weight]
  }

  /**
   * `Ord::cmp`: lexicographic on (from, to, left, right, weight), with the
   * faces compared by the order of S.
   */
  function Cmp<S(!new)>(a: AbstractPlanarEdge<S>, b: AbstractPlanarEdge<S>, faceKey: S -> nat): (r: Ordering)
    requires Injective(faceKey)
    ensures r == Equal <==> a == b
    ensures a.from != b.from ==> (r == Less <==> a.from < b.from)
    ensures a.from == b.from && a.to != b.to ==> (r == Less <==> a.to < b.to)
    ensures a.from == b.from && a.to == b.to && a.left != b.left ==> (r == Less <==> faceKey(a.left) < faceKey(b.left))
    ensures a.from == b.from && a.to == b.to && a.left == b.left && a.right != b.right ==>
      (r == Less <==> faceKey(a.right) < faceKey(b.right))
    ensures a.from == b.from && a.to == b.to && a.left == b.left && a.right == b.right && a.weight != b.weight ==>
      (r == Less <==> a.weight < b.weight)
  {
    var r := LexCompare(Key(a, faceKey), Key(b, faceKey));
    assert Key(a, faceKey) == Key(b, faceKey) ==> a == b by {
      if Key(a, faceKey) == Key(b, faceKey) {
        assert Key(a, faceKey)[2] == Key(b, faceKey)[2] && Key(a, faceKey)[3] == Key(b, faceKey)[3];
        assert Key(a, faceKey)[0] == Key(b, faceKey)[0] && Key(a, faceKey)[1] == Key(b, faceKey)[1];
        assert Key(a, faceKey)[4] == Key(b, faceKey)[4];
      }
    }
    assert Key(a, faceKey)[..1] == Key(b, faceKey)[..1] <== a.from == b.from;
    assert Key(a, faceKey)[..2] == Key(b, faceKey)[..2] <== a.from == b.from && a.to == b.to;
    assert Key(a, faceKey)[..3] == Key(b, faceKey)[..3] <== a.from == b.from && a.to == b.to && a.left == b.left;
    assert Key(a, faceKey)[..4] == Key(b, faceKey)[..4] <== a.from == b.from && a.to == b.to && a.left == b.left && a.right == b.right;
    r
  }

  /** `Cmp` is a total order for both face types. */
  lemma CmpTotalOrder<S(!new)>(a: AbstractPlanarEdge<S>, b: AbstractPlanarEdge<S>, c: AbstractPlanarEdge<S>, faceKey: S -> nat)
    requires Injective(faceKey)
    ensures Cmp(b, a, faceKey) == Cmp(a, b, faceKey).Reverse()
    ensures Cmp(a, b, faceKey) != Greater && Cmp(b, c, faceKey) != Greater ==> Cmp(a, c, faceKey) != Greater
  {
    LexCompareReverse(Key(a, faceKey), Key(b, faceKey));
    if Cmp(a, b, faceKey) != Greater && Cmp(b, c, faceKey) != Greater {
      LexCompareTransitive(Key(a, faceKey), Key(b, faceKey), Key(c, faceKey));
    }
  }

  const NOTHING_MSG := "Expected an unsigned integer here, but found nothing!"
  const BASE_MSG := "Could not parse the base of the edge as an unsigned integer!"
  const TIP_MSG := "Could not parse the tip of the edge as an unsigned integer!"

  /**
   * `from_str`: "from to [weight]" on single spaces; the faces are S's
   * default (0 for `usize`, None for `Option<usize>`); the weight is 1 when
   * absent or unparsable.  An unparsable base gives BASE_MSG, a missing tip
   * NOTHING_MSG and an unparsable tip TIP_MSG.
   */
  function FromStr<S>(s: string, faceDefault: S): (r: Result<AbstractPlanarEdge<S>, string>)
    ensures var ws := Text.Split(s, ' ');
      && (r.Ok? <==> |ws| >= 2 && Text.ParseU64(ws[0]).Some? && Text.ParseU64(ws[1]).Some?)
      && (r.Ok? ==> r.value.left == faceDefault && r.value.right == faceDefault
                    && r.value.from == Text.ParseU64(ws[0]).value && r.value.to == Text.ParseU64(ws[1]).value
                    && r.value.weight == Edges.WeightOrOne(Edges.Next(ws, 2)))
      && (Text.ParseU64(ws[0]).None? ==> r == Err(BASE_MSG))
      && (Text.ParseU64(ws[0]).Some? && |ws| < 2 ==> r == Err(NOTHING_MSG))
      && (Text.ParseU64(ws[0]).Some? && |ws| >= 2 && Text.ParseU64(ws[1]).None? ==> r == Err(TIP_MSG))
  {
    var ws := Text.Split(s, ' ');
    match Edges.ParseField(Edges.Next(ws, 0), NOTHING_MSG, BASE_MSG)
    case Err(m) => Err(m)
    case Ok(from) =>
      match Edges.ParseField(Edges.Next(ws, 1), NOTHING_MSG, TIP_MSG)
      case Err(m) => Err(m)
      case Ok(to) => Ok(AbstractPlanarEdge(from, to, Edges.WeightOrOne(Edges.Next(ws, 2)), faceDefault, faceDefault))
  }

  /** The edge as a "from to weight" line. */
  function Format<S>(e: AbstractPlanarEdge<S>): string
  {
    Text.Fields([e.from, e.to, e.weight])
  }

  /** Parsing a formatted edge gives the edge back with default faces. */
  lemma FromStrFormat<S>(e: AbstractPlanarEdge<S>, faceDefault: S)
    requires e.from <= Text.U64_MAX && e.to <= Text.U64_MAX && e.weight <= Text.U64_MAX
    ensures FromStr(Format(e), faceDefault) == Ok(e.(left := faceDefault, right := faceDefault))
  {
    var nums := [e.from, e.to, e.weight];
    Text.SplitFields(nums);
    var ws := Text.Split(Format(e), ' ');
    assert |ws| == 3 && forall i :: 0 <= i < 3 ==> ws[i] == Text.NatToString(nums[i]);
    Text.ParseNatToString(e.from);
    Text.ParseNatToString(e.to);
    Text.ParseNatToString(e.weight);
  }

  /** The `Edge` dictionary, for either face type. */
  function Ops<S>(): Edges.EdgeOps<AbstractPlanarEdge<S>>
  {
    Edges.EdgeOps((e: AbstractPlanarEdge<S>) => e.from, (e: AbstractPlanarEdge<S>) => e.to,
                  (e: AbstractPlanarEdge<S>) => e.weight, Reverse)
  }

  lemma OpsLawful<S(!new)>()
    ensures Edges.Lawful(Ops<S>())
  {
  }
}
