/** Option, Result and Ordering: the Rust standard types the model needs. */
module Wrappers {

  datatype Option<T> = None | Some(value: T)
  {
    predicate IsSome() { Some? }

    /** `unwrap_or`: the stored value, or the default. */
    function UnwrapOr(default: T): T
    {
      match this
      case Some(v) => v
      case None => default
    }
  }

  datatype Result<T, E> = Ok(value: T) | Err(error: E)
  {
    predicate IsOk() { Ok? }
  }

  /** `std::cmp::Ordering`. */
  datatype Ordering = Less | Equal | Greater
  {
    /** `Ordering::then`: this ordering unless it is Equal. */
    function Then(next: Ordering): Ordering
    {
      if this == Equal then next else this
    }

    /** `Ordering::reverse`. */
    function Reverse(): Ordering
    {
      match this
      case Less => Greater
      case Equal => Equal
      case Greater => Less
    }
  }

  /** Comparison of two naturals, as `Ord::cmp` on an unsigned integer. */
  function CompareNat(a: nat, b: nat): (r: Ordering)
    ensures r == Less <==> a < b
    ensures r == Equal <==> a == b
    ensures r == Greater <==> a > b
  {
    if a < b then Less else if a == b then Equal else Greater
  }

  /** Comparison of two integers, as `Ord::cmp` on a signed integer. */
  function CompareInt(a: int, b: int): (r: Ordering)
    ensures r == Less <==> a < b
    ensures r == Equal <==> a == b
    ensures r == Greater <==> a > b
  {
    if a < b then Less else if a == b then Equal else Greater
  }

  /**
   * Lexicographic comparison of two equally long keys, as Rust compares
   * tuples: the first differing position decides.
   */
  function LexCompare(xs: seq<nat>, ys: seq<nat>): (r: Ordering)
    requires |xs| == |ys|
    ensures r == Equal <==> xs == ys
    ensures forall k :: 0 <= k < |xs| && xs[..k] == ys[..k] && xs[k] != ys[k] ==> (r == Less <==> xs[k] < ys[k])
    decreases |xs|
  {
    if |xs| == 0 then Equal
    else
      var r := CompareNat(xs[0], ys[0]).Then(LexCompare(xs[1..], ys[1..]));
      assert xs == [xs[0]] + xs[1..] && ys == [ys[0]] + ys[1..];
      assert forall k :: 1 <= k < |xs| && xs[..k] == ys[..k] ==> xs[1..][..k - 1] == ys[1..][..k - 1] by {
        forall k | 1 <= k < |xs| && xs[..k] == ys[..k]
          ensures xs[1..][..k - 1] == ys[1..][..k - 1]
        {
          assert xs[1..][..k - 1] == xs[..k][1..] && ys[1..][..k - 1] == ys[..k][1..];
        }
      }
      assert forall k :: 1 <= k < |xs| && xs[..k] == ys[..k] ==> xs[0] == ys[0] by {
        forall k | 1 <= k < |xs| && xs[..k] == ys[..k]
          ensures xs[0] == ys[0]
        {
          assert xs[..k][0] == ys[..k][0];
        }
      }
      r
  }

  /** Swapping the keys reverses the comparison. */
  lemma {:induction false} LexCompareReverse(xs: seq<nat>, ys: seq<nat>)
    requires |xs| == |ys|
    ensures LexCompare(ys, xs) == LexCompare(xs, ys).Reverse()
    decreases |xs|
  {
    if |xs| > 0 {
      LexCompareReverse(xs[1..], ys[1..]);
    }
  }

  /** Lexicographic order is transitive. */
  lemma {:induction false} LexCompareTransitive(xs: seq<nat>, ys: seq<nat>, zs: seq<nat>)
    requires |xs| == |ys| == |zs|
    requires LexCompare(xs, ys) != Greater && LexCompare(ys, zs) != Greater
    ensures LexCompare(xs, zs) != Greater
    ensures LexCompare(xs, ys) == Less || LexCompare(ys, zs) == Less ==> LexCompare(xs, zs) == Less
    decreases |xs|
  {
    if |xs| > 0 && xs[0] == ys[0] == zs[0] {
      LexCompareTransitive(xs[1..], ys[1..], zs[1..]);
    }
  }
}
