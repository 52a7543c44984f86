/**
 * `Cost` (src/structure/cost.rs): the natural numbers extended with an
 * infinite element, used for every distance the algorithms compute.
 */
module Costs {
  import opened Wrappers
  import Text

  datatype Cost = Infinite | Finite(n: nat)

  /** `is_infinite`. */
  function IsInfinite(c: Cost): (r: bool)
    ensures r <==> !c.Finite?
  {
    match c
    case Infinite => true
    case Finite(_) => false
  }

  /** `is_finite`: the negation of `is_infinite`. */
  function IsFinite(c: Cost): (r: bool)
    ensures r <==> c.Finite?
    ensures r != IsInfinite(c)
  {
    !IsInfinite(c)
  }

  /** `expect`: the number inside a finite cost; an infinite one panics. */
  function Expect(c: Cost, msg: string): (x: nat)
    requires IsFinite(c)
    ensures c == Finite(x)
  {
    match c
    case Finite(x) => x
  }

  /** `unwrap`: `expect` with a fixed message. */
  function Unwrap(c: Cost): (x: nat)
    requires IsFinite(c)
    ensures c == Finite(x)
  {
    Expect(c, "Error: tried to unwrap an infinite value and treat it as strictly finite")
  }

  /** `Ord::cmp`: Infinite is above every finite cost, finite costs compare by value. */
  function Cmp(a: Cost, b: Cost): (r: Ordering)
    ensures r == Equal <==> a == b
    ensures a.Infinite? && b.Finite? ==> r == Greater
    ensures a.Finite? && b.Infinite? ==> r == Less
    ensures a.Finite? && b.Finite? ==> (r == Less <==> a.n < b.n)
  {
    match (a, b)
    case (Infinite, Infinite) => Equal
    case (Infinite, Finite(_)) => Greater
    case (Finite(_), Infinite) => Less
    case (Finite(x), Finite(y)) => CompareNat(x, y)
  }

  /** `a <= b` under `Cmp`. */
  predicate Le(a: Cost, b: Cost)
  {
    Cmp(a, b) != Greater
  }

  /** Swapping the operands reverses the ordering. */
  lemma CmpAntisymmetric(a: Cost, b: Cost)
    ensures Cmp(b, a) == Cmp(a, b).Reverse()
  {
  }

  /** `Cmp` is transitive, so together with antisymmetry it is a total order. */
  lemma CmpTransitive(a: Cost, b: Cost, c: Cost)
    requires Le(a, b) && Le(b, c)
    ensures Le(a, c)
  {
  }

  /** Every cost is at most Infinite, and Finite(0) is the least cost. */
  lemma CmpBounds(c: Cost)
    ensures Le(c, Infinite)
    ensures Le(Finite(0), c)
  {
  }

  /** `Add`: finite costs add, anything plus Infinite is Infinite. */
  function Add(a: Cost, b: Cost): (r: Cost)
    ensures r.Finite? <==> a.Finite? && b.Finite?
    ensures r.Finite? ==> r.n == a.n + b.n
  {
    match (a, b)
    case (Finite(x), Finite(y)) => Finite(x + y)
    case _ => Infinite
  }

  /** Addition is commutative and associative, with Finite(0) as identity. */
  lemma AddMonoid(a: Cost, b: Cost, c: Cost)
    ensures Add(a, b) == Add(b, a)
    ensures Add(Add(a, b), c) == Add(a, Add(b, c))
    ensures Add(a, Finite(0)) == a
  {
  }

  /** Adding a cost never makes a cost smaller. */
  lemma AddMonotone(a: Cost, b: Cost)
    ensures Le(a, Add(a, b))
  {
  }

  /**
   * `Sub`: finite costs subtract on u64, where a negative difference is an
   * overflow panic, so the model requires a >= b when both are finite.
   */
  function Sub(a: Cost, b: Cost): (r: Cost)
    requires a.Finite? && b.Finite? ==> a.n >= b.n
    ensures r.Finite? <==> a.Finite? && b.Finite?
    ensures r.Finite? ==> r.n + b.n == a.n
  {
    match (a, b)
    case (Finite(x), Finite(y)) => Finite(x - y)
    case _ => Infinite
  }

  /** Subtracting a finite cost undoes adding it. */
  lemma SubAdd(a: Cost, b: Cost)
    requires b.Finite?
    ensures Sub(Add(a, b), b) == a
  {
  }

  /** `From<Option<u64>>`: None is Infinite, Some(x) is Finite(x). */
  function FromOption(o: Option<nat>): (r: Cost)
    ensures r.Finite? <==> o.Some?
    ensures o.Some? ==> r.n == o.value
  {
    match o
    case None => Infinite
    case Some(x) => Finite(x)
  }

  /** The Option view of a cost; `FromOption` inverts it. */
  function ToOption(c: Cost): Option<nat>
  {
    match c
    case Infinite => None
    case Finite(x) => Some(x)
  }

  lemma OptionRoundTrip(c: Cost, o: Option<nat>)
    ensures FromOption(ToOption(c)) == c
    ensures ToOption(FromOption(o)) == o
  {
  }

  /** `From<Result<u64, E>>`: Err is Infinite, Ok(x) is Finite(x). */
  function FromResult<E>(res: Result<nat, E>): (r: Cost)
    ensures r.Finite? <==> res.Ok?
    ensures res.Ok? ==> r.n == res.value
  {
    match res
    case Err(_) => Infinite
    case Ok(x) => Finite(x)
  }

  /** `FromResult` agrees with `FromOption` once the error is forgotten. */
  lemma ResultAgreesWithOption<E>(res: Result<nat, E>)
    ensures FromResult(res) == FromOption(if res.Ok? then Some(res.value) else None)
  {
  }

  /**
   * `FromStr`: never fails; a string that parses as u64 is that finite cost,
   * anything else is Infinite.
   */
  function FromStr(s: string): (r: Cost)
    ensures r.Finite? <==> Text.ParseU64(s).Some?
    ensures r.Finite? ==> r.n == Text.ParseU64(s).value && r.n <= Text.U64_MAX
  {
    FromOption(Text.ParseU64(s))
  }

  /** `Debug`: the decimal digits of a finite cost, and "∞" for Infinite. */
  function Debug(c: Cost): (r: string)
    ensures c.Infinite? ==> r == "∞"
    ensures c.Finite? ==> Text.AllDigits(r) && |r| > 0 && Text.DigitsValue(r) == c.n
  {
    match c
    case Finite(x) => Text.NatToString(x)
    case Infinite => "∞"
  }

  /** Parsing what `Debug` printed gives the cost back, for every cost that fits in u64. */
  lemma FromStrDebug(c: Cost)
    requires c.Finite? ==> c.n <= Text.U64_MAX
    ensures FromStr(Debug(c)) == c
  {
    if c.Finite? {
      Text.ParseNatToString(c.n);
    } else {
      assert Text.ParseU64("∞") == None by {
        assert !Text.IsDigit('∞');
      }
    }
  }

  /** How many entries of dist are still Infinite. */
  function Unfound(dist: seq<Cost>): nat
  {
    if |dist| == 0 then 0
    else Unfound(dist[..|dist| - 1]) + (if dist[|dist| - 1].Infinite? then 1 else 0)
  }

  /** Making one Infinite entry finite leaves one fewer to find. */
  lemma {:induction false} UnfoundUpdate(dist: seq<Cost>, v: nat, c: Cost)
    requires v < |dist| && dist[v].Infinite? && c.Finite?
    ensures Unfound(dist[v := c]) == Unfound(dist) - 1
  {
    var last := |dist| - 1;
    if v < last {
      assert dist[v := c][..last] == dist[..last][v := c];
      UnfoundUpdate(dist[..last], v, c);
    } else {
      assert dist[v := c][..last] == dist[..last];
    }
  }
}
