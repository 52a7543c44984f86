/**
 * The shortest-odd-path integration test (tests/test_shortest_odd_path.rs):
 * a query names a source and a sink and may name the expected cost, and
 * every path the algorithm reports is checked whether or not a cost was
 * expected.
 */
module OddPathTests {
  import opened Wrappers
  import opened Costs
  import Text
  import Edges
  import Misc
  import Format
  import Problems

  type Graph = Problems.Graph
  type EdgePathResult = Problems.EdgePathResult

  /**
   * `parse_query`: a source and a sink that must both be present and
   * parse, then an optional third word read with `Cost::from_str`, which
   * never fails; without a third word no cost is expected.
   */
  function ParseQuery(query: string): (r: Option<((nat, nat), Option<Cost>)>)
    ensures r.Some? <==> Problems.Numbers(Text.Split(query, ' '), 2).Some?
    ensures r.Some? ==> (r.value.1.Some? <==> |Text.Split(query, ' ')| >= 3)
  {
    var words := Text.Split(query, ' ');
    match Problems.Numbers(words, 2)
    case None => None
    case Some(ns) =>
      var cost := if |words| >= 3 then Some(FromStr(words[2])) else None;
      Some(((ns[0], ns[1]), cost))
  }

  /** A written query with its cost reads back as itself. */
  lemma ParseQueryWithCost(source: nat, sink: nat, cost: Cost)
    requires source <= Text.U64_MAX && sink <= Text.U64_MAX
    requires cost.Finite? ==> cost.n <= Text.U64_MAX
    ensures ParseQuery(Problems.QueryLine([source, sink], Format.FormatCost(cost))) == Some(((source, sink), Some(cost)))
  {
    Problems.CostWord(cost);
    Problems.QueryLineWords([source, sink], Format.FormatCost(cost));
    Problems.QueryLineNumbers([source, sink], Format.FormatCost(cost));
  }

  /** A query of only a source and a sink expects no particular cost. */
  lemma ParseQueryWithoutCost(source: nat, sink: nat)
    requires source <= Text.U64_MAX && sink <= Text.U64_MAX
    ensures ParseQuery(Problems.QueryLine([source], Text.NatToString(sink))) == Some(((source, sink), None))
  {
    Text.NatToStringOnlyDigits(sink, ' ');
    Problems.QueryLineWords([source], Text.NatToString(sink));
    var words := Text.Split(Problems.QueryLine([source], Text.NatToString(sink)), ' ');
    assert words == [Text.NatToString(source), Text.NatToString(sink)];
    Text.ParseNatToString(source);
    Text.ParseNatToString(sink);
    Problems.NumbersOf(words, [source, sink]);
  }

  /** A third word that is not a number still makes a query, expecting no path. */
  lemma UnparsableCostExpectsNoPath(source: nat, sink: nat, word: string)
    requires source <= Text.U64_MAX && sink <= Text.U64_MAX
    requires ' ' !in word && Text.ParseU64(word).None?
    ensures ParseQuery(Problems.QueryLine([source, sink], word)) == Some(((source, sink), Some(Infinite)))
  {
    Problems.QueryLineWords([source, sink], word);
    Problems.QueryLineNumbers([source, sink], word);
  }

  /** The answer agrees with the expected cost, when there is one. */
  predicate Expected(expected: Option<Cost>, actual: EdgePathResult)
  {
    match expected
    case None => true
    case Some(Infinite) => actual.Impossible?
    case Some(Finite(c)) => actual.Possible? && actual.cost == c
  }

  /**
   * `verify_answer`: first the expectation, if any; then a reported path
   * must have an odd number of edges, lead from source to sink through
   * the graph, and pass `assert_is_path`.  The test calls `verify_path`
   * with one cost where the helper takes an expected and an actual cost;
   * with the path's own cost in both places the cost comparison always
   * holds, so the call is read as the path check `Problems.CheckPath`.
   */
  method VerifyAnswer(g: Graph, query: (nat, nat), expected: Option<Cost>, actual: EdgePathResult)
    returns (r: Problems.Verdict)
    requires g.Valid()
    ensures r == Problems.Pass <==> (Expected(expected, actual)
      && (actual.Possible? ==> (|actual.path| % 2 == 1 && Problems.Leads(g, actual.path, query.0, query.1)
          && forall k :: 0 <= k < |actual.path| ==> !Misc.Revisits(Edges.Ops(), actual.path, k))))
    ensures r.Fail? && r.failure.NotSimple? ==> actual.Possible? && exists k :: (0 <= k < |actual.path|
      && Misc.Revisits(Edges.Ops(), actual.path, k) && r.failure.v == actual.path[k].to)
  {
    if expected.Some? {
      match (expected.value, actual)
      case (Infinite, Possible(_, _)) =>
        return Problems.Fail(Problems.UnexpectedPath);
      case (Finite(_), Impossible) =>
        return Problems.Fail(Problems.MissingPath);
      case (Finite(c), Possible(cost, _)) =>
        if c != cost {
          return Problems.Fail(Problems.CostMismatch);
        }
      case (Infinite, Impossible) =>
    }
    if actual.Possible? {
      if |actual.path| % 2 != 1 {
        return Problems.Fail(Problems.EvenLength);
      }
      var checked := Problems.CheckPath(g, actual.path, query.0, query.1);
      if checked.Fail? {
        return checked;
      }
      var revisit := Misc.AssertIsPath(Edges.Ops(), actual.path);
      if revisit.Some? {
        return Problems.Fail(Problems.NotSimple(revisit.value));
      }
    }
    return Problems.Pass;
  }
}
