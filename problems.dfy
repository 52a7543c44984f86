/**
 * The problems of the integration tests (tests/utility/problem.rs): how
 * each one reads a query line, and what it demands of the answer an
 * algorithm gives.  A query line is split on single spaces; a test fails
 * on the first assertion that does not hold or on the first panic, and
 * `Verdict` records which one it was.
 */
module Problems {
  import opened Wrappers
  import opened Costs
  import Text
  import Edges
  import Graphs
  import AdjLists
  import Format
  import Testing

  type BasicEdge = Edges.BasicEdge
  type Graph = Graphs.UndirectedGraph<BasicEdge>

  /** The two-parameter `PathResult` the tests read: the path is a sequence of edges. */
  datatype EdgePathResult = Possible(cost: nat, path: seq<BasicEdge>) | Impossible

  /** The assertion or panic that stops a test. */
  datatype Failure =
    | UnexpectedPath
    | MissingPath
    | CostMismatch
    | EvenLength
    | EmptyPath
    | WrongStart
    | WrongEnd
    | NoSuchEdge(from: nat, to: nat)
    | NotSimple(v: nat)
    | MissesBottleneck
    | SharedVertex

  datatype Verdict = Pass | Fail(failure: Failure)

  // ---------------------------------------------------------------------
  // Queries
  // ---------------------------------------------------------------------

  /**
   * The first k words, each parsed as usize; None when a word is missing
   * or does not parse (the `words.next()?.parse().ok()?` chain).
   */
  function Numbers(words: seq<string>, k: nat): (r: Option<seq<nat>>)
    ensures r.Some? <==> k <= |words| && forall i :: 0 <= i < k ==> Text.ParseU64(words[i]).Some?
    ensures r.Some? ==> |r.value| == k && forall i :: 0 <= i < k ==> Some(r.value[i]) == Text.ParseU64(words[i])
  {
    if k == 0 then Some([])
    else match Numbers(words, k - 1)
      case None => None
      case Some(ns) =>
        if k - 1 < |words| && Text.ParseU64(words[k - 1]).Some? then Some(ns + [Text.ParseU64(words[k - 1]).value])
        else None
  }

  /** Words beyond the first k do not change what the first k parse to. */
  lemma {:induction false} NumbersPrefix(words: seq<string>, more: seq<string>, k: nat)
    requires k <= |words|
    ensures Numbers(words + more, k) == Numbers(words, k)
  {
    if k > 0 {
      NumbersPrefix(words, more, k - 1);
      assert (words + more)[k - 1] == words[k - 1];
    }
  }

  /** A bottleneck query: a path from s to t through the directed edge u→v, and its expected cost. */
  datatype BottleneckQuery = BottleneckQuery(s: nat, t: nat, u: nat, v: nat, cost: Cost)

  /** A disjoint-paths query: paths s1→t1 and s2→t2, and their expected combined cost. */
  datatype DisjointQuery = DisjointQuery(s1: nat, t1: nat, s2: nat, t2: nat, cost: Cost)

  /** A network-diversion query: s, t, the edge du–dv, and the expected cost. */
  datatype DiversionQuery = DiversionQuery(s: nat, t: nat, du: nat, dv: nat, expected: nat)

  /**
   * Bottleneck `parse_query`: four numbers, then a fifth word that must be
   * present; `Cost::from(parse())` makes an unparsable fifth word Infinite.
   */
  function ParseBottleneck(query: string): (r: Option<BottleneckQuery>)
    ensures r.Some? <==> Numbers(Text.Split(query, ' '), 4).Some? && |Text.Split(query, ' ')| >= 5
    ensures r.Some? ==> r.value.cost == FromStr(Text.Split(query, ' ')[4])
  {
    var words := Text.Split(query, ' ');
    match Numbers(words, 4)
    case None => None
    case Some(ns) =>
      if |words| < 5 then None
      else Some(BottleneckQuery(ns[0], ns[1], ns[2], ns[3], FromStr(words[4])))
  }

  /** Disjoint-paths `parse_query`: the same five words, grouped as two pairs and a cost. */
  function ParseDisjoint(query: string): (r: Option<DisjointQuery>)
    ensures r.Some? <==> Numbers(Text.Split(query, ' '), 4).Some? && |Text.Split(query, ' ')| >= 5
    ensures r.Some? ==> r.value.cost == FromStr(Text.Split(query, ' ')[4])
  {
    var words := Text.Split(query, ' ');
    match Numbers(words, 4)
    case None => None
    case Some(ns) =>
      if |words| < 5 then None
      else Some(DisjointQuery(ns[0], ns[1], ns[2], ns[3], FromStr(words[4])))
  }

  /** Network-diversion `parse_query`: five numbers; an unparsable cost is no query at all. */
  function ParseDiversion(query: string): (r: Option<DiversionQuery>)
    ensures r.Some? <==> Numbers(Text.Split(query, ' '), 5).Some?
  {
    match Numbers(Text.Split(query, ' '), 5)
    case None => None
    case Some(ns) => Some(DiversionQuery(ns[0], ns[1], ns[2], ns[3], ns[4]))
  }

  /**
   * Walk and path `parse_query`: the sink as usize, then a second word
   * that must be present, read with `Cost::from_str`, which never fails.
   */
  function ParseSinkCost(query: string): (r: Option<(nat, Cost)>)
    ensures r.Some? <==> Numbers(Text.Split(query, ' '), 1).Some? && |Text.Split(query, ' ')| >= 2
    ensures r.Some? ==>
      Some(r.value.0) == Text.ParseU64(Text.Split(query, ' ')[0]) && r.value.1 == FromStr(Text.Split(query, ' ')[1])
  {
    var words := Text.Split(query, ' ');
    match Numbers(words, 1)
    case None => None
    case Some(ns) => if |words| < 2 then None else Some((ns[0], FromStr(words[1])))
  }

  /**
   * A walk or path query is read exactly as a line of an answer file, so
   * every written answer line reads back as the query it records.
   */
  lemma SinkCostRoundTrip(sink: nat, cost: Cost)
    requires sink <= Text.U64_MAX
    requires cost.Finite? ==> cost.n <= Text.U64_MAX
    ensures ParseSinkCost(Testing.AnswerLine(sink, cost)) == Some((sink, cost))
  {
    Testing.AnswerLineRoundTrip(sink, cost);
    SinkCostIsAnswer(Testing.AnswerLine(sink, cost));
  }

  lemma SinkCostIsAnswer(query: string)
    ensures ParseSinkCost(query) == Testing.AnswerOf(query)
  {
    assert Numbers(Text.Split(query, ' '), 0) == Some([]);
  }

  /** The query line a test file holds: the words joined by single spaces. */
  function QueryLine(nums: seq<nat>, last: string): string
  {
    Text.Join(seq(|nums|, i requires 0 <= i < |nums| => Text.NatToString(nums[i])) + [last], ' ')
  }

  /** Splitting a query line gives back the decimal words and the last word. */
  lemma QueryLineWords(nums: seq<nat>, last: string)
    requires ' ' !in last
    ensures Text.Split(QueryLine(nums, last), ' ')
         == seq(|nums|, i requires 0 <= i < |nums| => Text.NatToString(nums[i])) + [last]
  {
    var words := seq(|nums|, i requires 0 <= i < |nums| => Text.NatToString(nums[i])) + [last];
    forall i | 0 <= i < |words|
      ensures ' ' !in words[i]
    {
      if i < |nums| {
        Text.NatToStringOnlyDigits(nums[i], ' ');
      }
    }
    Text.SplitJoin(words, ' ');
  }

  /** The first |nums| words of a query line parse back to nums. */
  lemma QueryLineNumbers(nums: seq<nat>, last: string)
    requires ' ' !in last
    requires forall i :: 0 <= i < |nums| ==> nums[i] <= Text.U64_MAX
    ensures Numbers(Text.Split(QueryLine(nums, last), ' '), |nums|) == Some(nums)
  {
    QueryLineWords(nums, last);
    var words := Text.Split(QueryLine(nums, last), ' ');
    forall i | 0 <= i < |nums|
      ensures Text.ParseU64(words[i]) == Some(nums[i])
    {
      assert words[i] == Text.NatToString(nums[i]);
      Text.ParseNatToString(nums[i]);
    }
    NumbersOf(words, nums);
  }

  lemma NumbersOf(words: seq<string>, nums: seq<nat>)
    requires |nums| <= |words|
    requires forall i :: 0 <= i < |nums| ==> Text.ParseU64(words[i]) == Some(nums[i])
    ensures Numbers(words, |nums|) == Some(nums)
  {
    var r := Numbers(words, |nums|);
    assert r.Some?;
    assert r.value == nums;
  }

  lemma CostWord(cost: Cost)
    requires cost.Finite? ==> cost.n <= Text.U64_MAX
    ensures ' ' !in Format.FormatCost(cost) && FromStr(Format.FormatCost(cost)) == cost
  {
    if cost.Finite? {
      Text.NatToStringOnlyDigits(cost.n, ' ');
    }
    FromStrDebug(cost);
  }

  /** A written bottleneck query reads back as itself. */
  lemma BottleneckRoundTrip(q: BottleneckQuery)
    requires q.s <= Text.U64_MAX && q.t <= Text.U64_MAX && q.u <= Text.U64_MAX && q.v <= Text.U64_MAX
    requires q.cost.Finite? ==> q.cost.n <= Text.U64_MAX
    ensures ParseBottleneck(QueryLine([q.s, q.t, q.u, q.v], Format.FormatCost(q.cost))) == Some(q)
  {
    CostWord(q.cost);
    QueryLineWords([q.s, q.t, q.u, q.v], Format.FormatCost(q.cost));
    QueryLineNumbers([q.s, q.t, q.u, q.v], Format.FormatCost(q.cost));
  }

  /** A written disjoint-paths query reads back as itself. */
  lemma DisjointRoundTrip(q: DisjointQuery)
    requires q.s1 <= Text.U64_MAX && q.t1 <= Text.U64_MAX && q.s2 <= Text.U64_MAX && q.t2 <= Text.U64_MAX
    requires q.cost.Finite? ==> q.cost.n <= Text.U64_MAX
    ensures ParseDisjoint(QueryLine([q.s1, q.t1, q.s2, q.t2], Format.FormatCost(q.cost))) == Some(q)
  {
    CostWord(q.cost);
    QueryLineWords([q.s1, q.t1, q.s2, q.t2], Format.FormatCost(q.cost));
    QueryLineNumbers([q.s1, q.t1, q.s2, q.t2], Format.FormatCost(q.cost));
  }

  /** A written diversion query reads back as itself, and trailing words are ignored. */
  lemma DiversionRoundTrip(q: DiversionQuery, extra: string)
    requires q.s <= Text.U64_MAX && q.t <= Text.U64_MAX && q.du <= Text.U64_MAX && q.dv <= Text.U64_MAX
    requires q.expected <= Text.U64_MAX
    requires ' ' !in extra
    ensures ParseDiversion(QueryLine([q.s, q.t, q.du, q.dv, q.expected], extra)) == Some(q)
  {
    var nums := [q.s, q.t, q.du, q.dv, q.expected];
    QueryLineWords(nums, extra);
    var words := Text.Split(QueryLine(nums, extra), ' ');
    forall i | 0 <= i < 5
      ensures Text.ParseU64(words[i]) == Some(nums[i])
    {
      Text.ParseNatToString(nums[i]);
    }
  }

  /** A diversion query whose cost word is not a number is rejected. */
  lemma DiversionNeedsNumericCost(nums: seq<nat>, word: string)
    requires |nums| == 4 && ' ' !in word && Text.ParseU64(word).None?
    ensures ParseDiversion(QueryLine(nums, word)) == None
  {
    QueryLineWords(nums, word);
  }

  /** A bottleneck query whose cost word is not a number expects no path. */
  lemma BottleneckUnparsableCost(nums: seq<nat>, word: string)
    requires |nums| == 4 && forall i :: 0 <= i < 4 ==> nums[i] <= Text.U64_MAX
    requires ' ' !in word && Text.ParseU64(word).None?
    ensures ParseBottleneck(QueryLine(nums, word)).Some?
    ensures ParseBottleneck(QueryLine(nums, word)).value.cost == Infinite
  {
    QueryLineWords(nums, word);
    QueryLineNumbers(nums, word);
  }

  /** Words after the fifth are never read. */
  lemma ExtraWordsIgnored(query: string, extra: string)
    requires |Text.Split(query, ' ')| >= 5
    ensures ParseBottleneck(query + " " + extra) == ParseBottleneck(query)
    ensures ParseDisjoint(query + " " + extra) == ParseDisjoint(query)
    ensures ParseDiversion(query + " " + extra) == ParseDiversion(query)
  {
    var words := Text.Split(query, ' ');
    Text.SplitAppend(query, extra, ' ');
    var all := Text.Split(query + " " + extra, ' ');
    assert all == words + Text.Split(extra, ' ');
    NumbersPrefix(words, Text.Split(extra, ' '), 4);
    NumbersPrefix(words, Text.Split(extra, ' '), 5);
    assert all[4] == words[4];
  }

  // ---------------------------------------------------------------------
  // Checks on answers
  // ---------------------------------------------------------------------

  /** `is_adjacent(e.from(), e.to())`, which panics on a tail outside the graph. */
  predicate HasEdge(g: Graph, e: BasicEdge)
    reads g
    requires g.Valid()
  {
    e.from < g.n && g.IsAdjacent(e.from, e.to)
  }

  /** A path of edges that starts at source, ends at sink and uses only edges of g. */
  predicate Leads(g: Graph, path: seq<BasicEdge>, source: nat, sink: nat)
    reads g
    requires g.Valid()
  {
    && |path| > 0
    && path[0].from == source
    && path[|path| - 1].to == sink
    && forall i :: 0 <= i < |path| ==> HasEdge(g, path[i])
  }

  /** The loop over the path's edges from index i on: the first edge missing from g fails it. */
  function EdgesFrom(g: Graph, path: seq<BasicEdge>, i: nat): (r: Verdict)
    reads g
    requires g.Valid() && i <= |path|
    ensures r == Pass <==> forall k :: i <= k < |path| ==> HasEdge(g, path[k])
    ensures r.Fail? ==> exists k :: (i <= k < |path| && !HasEdge(g, path[k])
      && r.failure == NoSuchEdge(path[k].from, path[k].to)
      && forall j :: i <= j < k ==> HasEdge(g, path[j]))
    decreases |path| - i
  {
    if i == |path| then Pass
    else if !HasEdge(g, path[i]) then Fail(NoSuchEdge(path[i].from, path[i].to))
    else EdgesFrom(g, path, i + 1)
  }

  /** `verify_path` after its cost check: the endpoints, then every edge. */
  function CheckPath(g: Graph, path: seq<BasicEdge>, source: nat, sink: nat): (r: Verdict)
    reads g
    requires g.Valid()
    ensures r == Pass <==> Leads(g, path, source, sink)
    ensures r == Fail(EmptyPath) <==> |path| == 0
    ensures |path| > 0 && path[0].from != source ==> r == Fail(WrongStart)
  {
    if |path| == 0 then Fail(EmptyPath)
    else if path[0].from != source then Fail(WrongStart)
    else if path[|path| - 1].to != sink then Fail(WrongEnd)
    else EdgesFrom(g, path, 0)
  }

  /** `verify_path`: the costs agree and the path leads from source to sink through g. */
  function VerifyPath(g: Graph, expected: nat, actual: nat, path: seq<BasicEdge>, source: nat, sink: nat): (r: Verdict)
    reads g
    requires g.Valid()
    ensures r == Pass <==> expected == actual && Leads(g, path, source, sink)
    ensures r == Fail(CostMismatch) <==> expected != actual
  {
    if expected != actual then Fail(CostMismatch) else CheckPath(g, path, source, sink)
  }

  /**
   * The expectation and the answer agree on whether there is a path:
   * an Infinite expectation wants Impossible, a finite one wants Possible.
   */
  predicate Agrees(expected: Cost, actual: EdgePathResult)
  {
    expected.Infinite? <==> actual.Impossible?
  }

  /**
   * Walk `verify_answer`: a found walk with a finite expectation must have
   * an odd number of edges and pass `verify_path` from 0.
   */
  function VerifyWalk(g: Graph, query: (nat, Cost), actual: EdgePathResult): (r: Verdict)
    reads g
    requires g.Valid()
    ensures r == Pass <==> (Agrees(query.1, actual)
      && (actual.Possible? ==> (|actual.path| % 2 == 1 && query.1.n == actual.cost && Leads(g, actual.path, 0, query.0))))
    ensures query.1.Infinite? && actual.Possible? ==> r == Fail(UnexpectedPath)
    ensures query.1.Finite? && actual.Impossible? ==> r == Fail(MissingPath)
  {
    match (query.1, actual)
    case (Infinite, Possible(_, _)) => Fail(UnexpectedPath)
    case (Finite(_), Impossible) => Fail(MissingPath)
    case (Finite(expected), Possible(cost, path)) =>
      if |path| % 2 != 1 then Fail(EvenLength) else VerifyPath(g, expected, cost, path, 0, query.0)
    case (Infinite, Impossible) => Pass
  }

  /** No edge after position i arrives at the tail of edge i. */
  predicate NoReturn(path: seq<BasicEdge>)
  {
    forall i, j :: 0 <= i < j < |path| ==> path[j].to != path[i].from
  }

  /** The simplicity loop from index i on: the first tail that a later edge returns to fails it. */
  function SimpleFrom(path: seq<BasicEdge>, i: nat): (r: Verdict)
    requires i <= |path|
    ensures r == Pass <==> forall a, b :: i <= a < b < |path| ==> path[b].to != path[a].from
    ensures r.Fail? ==> exists a :: i <= a < |path| && r.failure == NotSimple(path[a].from)
    decreases |path| - i
  {
    if i + 1 >= |path| then Pass
    else if AdjLists.AnyTo(path[i + 1..], Edges.Ops().to, path[i].from) then
      assert exists b :: i < b < |path| && path[b].to == path[i].from by {
        var k :| 0 <= k < |path[i + 1..]| && Edges.Ops().to(path[i + 1..][k]) == path[i].from;
        assert path[i + 1 + k].to == path[i].from;
      }
      Fail(NotSimple(path[i].from))
    else
      assert forall b :: i < b < |path| ==> path[b].to != path[i].from by {
        forall b | i < b < |path|
          ensures path[b].to != path[i].from
        {
          assert path[i + 1..][b - i - 1] == path[b];
        }
      }
      SimpleFrom(path, i + 1)
  }

  /**
   * Path `verify_answer`: like the walk check, and the path must also
   * never come back to the tail of an earlier edge.
   */
  function VerifyOddPath(g: Graph, query: (nat, Cost), actual: EdgePathResult): (r: Verdict)
    reads g
    requires g.Valid()
    ensures r == Pass <==> (Agrees(query.1, actual)
      && (actual.Possible? ==> (|actual.path| % 2 == 1 && query.1.n == actual.cost
          && Leads(g, actual.path, 0, query.0) && NoReturn(actual.path))))
    ensures query.1.Infinite? && actual.Possible? ==> r == Fail(UnexpectedPath)
    ensures query.1.Finite? && actual.Impossible? ==> r == Fail(MissingPath)
  {
    match (query.1, actual)
    case (Infinite, Possible(_, _)) => Fail(UnexpectedPath)
    case (Finite(_), Impossible) => Fail(MissingPath)
    case (Finite(expected), Possible(cost, path)) =>
      if |path| % 2 != 1 then Fail(EvenLength)
      else
        var checked := VerifyPath(g, expected, cost, path, 0, query.0);
        if checked.Fail? then checked else SimpleFrom(path, 0)
    case (Infinite, Impossible) => Pass
  }

  /** Some edge of the path goes from u to v. */
  predicate Through(path: seq<BasicEdge>, u: nat, v: nat)
  {
    exists i :: 0 <= i < |path| && path[i].from == u && path[i].to == v
  }

  /** Bottleneck `verify_answer`: `verify_path` from s to t, then the edge u→v must be on the path. */
  function VerifyBottleneck(g: Graph, query: BottleneckQuery, actual: EdgePathResult): (r: Verdict)
    reads g
    requires g.Valid()
    ensures r == Pass <==> (Agrees(query.cost, actual)
      && (actual.Possible? ==> (query.cost.n == actual.cost
          && Leads(g, actual.path, query.s, query.t) && Through(actual.path, query.u, query.v))))
    ensures r == Fail(MissesBottleneck) ==> actual.Possible? && !Through(actual.path, query.u, query.v)
  {
    match (query.cost, actual)
    case (Infinite, Possible(_, _)) => Fail(UnexpectedPath)
    case (Finite(_), Impossible) => Fail(MissingPath)
    case (Finite(expected), Possible(cost, path)) =>
      var checked := VerifyPath(g, expected, cost, path, query.s, query.t);
      if checked.Fail? then checked
      else if exists i :: 0 <= i < |path| && path[i].from == query.u && path[i].to == query.v then Pass
      else Fail(MissesBottleneck)
    case (Infinite, Impossible) => Pass
  }

  /**
   * The disjointness test as written at line 176: no edge of p1 is also an
   * edge of p2.  Two paths through a common vertex on different edges pass it.
   */
  predicate EdgeDisjoint(p1: seq<BasicEdge>, p2: seq<BasicEdge>): (r: bool)
    ensures r <==> forall i, j :: 0 <= i < |p1| && 0 <= j < |p2| ==> p1[i] != p2[j]
  {
    !(exists i :: 0 <= i < |p1| && p1[i] in p2)
  }

  /** The vertices an edge sequence touches. */
  function Vertices(p: seq<BasicEdge>): (r: set<nat>)
    ensures forall i :: 0 <= i < |p| ==> p[i].from in r && p[i].to in r
    ensures forall v :: v in r ==> exists i :: 0 <= i < |p| && (p[i].from == v || p[i].to == v)
  {
    if |p| == 0 then {}
    else
      var rest := Vertices(p[1..]);
      assert forall i :: 1 <= i < |p| ==> p[i] == p[1..][i - 1];
      {p[0].from, p[0].to} + rest
  }

  /** The test the failure message describes: the two paths use different vertices. */
  predicate VertexDisjoint(p1: seq<BasicEdge>, p2: seq<BasicEdge>)
  {
    Vertices(p1) !! Vertices(p2)
  }

  /** Paths sharing one vertex through different edges pass the test as written. */
  lemma SharedVertexPassesEdgeTest()
    ensures EdgeDisjoint([Edges.BasicEdge(0, 1, 1)], [Edges.BasicEdge(2, 1, 1)])
    ensures !VertexDisjoint([Edges.BasicEdge(0, 1, 1)], [Edges.BasicEdge(2, 1, 1)])
  {
    var p1 := [Edges.BasicEdge(0, 1, 1)];
    var p2 := [Edges.BasicEdge(2, 1, 1)];
    assert 1 in Vertices(p1) && 1 in Vertices(p2);
  }

  /** Vertex-disjoint paths are also edge-disjoint: the corrected test is the stronger one. */
  lemma VertexDisjointIsEdgeDisjoint(p1: seq<BasicEdge>, p2: seq<BasicEdge>)
    requires VertexDisjoint(p1, p2)
    ensures EdgeDisjoint(p1, p2)
  {
  }

  /**
   * Disjoint-paths `verify_answer` with the vertex test the message
   * describes: then the costs must agree, and each path must pass
   * `verify_path` (whose own cost check compares 0 with 0).
   */
  function VerifyDisjoint(g: Graph, query: DisjointQuery, actual: Option<(nat, seq<BasicEdge>, seq<BasicEdge>)>): (r: Verdict)
    reads g
    requires g.Valid()
    ensures r == Pass <==> ((query.cost.Infinite? <==> actual.None?)
      && (actual.Some? ==> (VertexDisjoint(actual.value.1, actual.value.2) && query.cost.n == actual.value.0
          && Leads(g, actual.value.1, query.s1, query.t1) && Leads(g, actual.value.2, query.s2, query.t2))))
    ensures actual.Some? && query.cost.Finite? && !VertexDisjoint(actual.value.1, actual.value.2) ==> r == Fail(SharedVertex)
  {
    match (query.cost, actual)
    case (Finite(_), None) => Fail(MissingPath)
    case (Infinite, Some(_)) => Fail(UnexpectedPath)
    case (Finite(c), Some((w, p1, p2))) =>
      if !VertexDisjoint(p1, p2) then Fail(SharedVertex)
      else if c != w then Fail(CostMismatch)
      else
        var first := VerifyPath(g, 0, 0, p1, query.s1, query.t1);
        if first.Fail? then first else VerifyPath(g, 0, 0, p2, query.s2, query.t2)
    case (Infinite, None) => Pass
  }
}
