/** Printing of costs and distance tables (src/utility/format.rs). */
module Format {
  import opened Costs
  import Text

  /** `format_cost`: the number for a finite cost and "∞" otherwise. */
  function FormatCost(cost: Cost): (r: string)
    ensures r == Debug(cost)
    ensures |r| > 0 && '\n' !in r && r[|r| - 1] != '\r'
  {
    match cost
    case Finite(x) => Text.NatToString(x)
    case Infinite => "∞"
  }

  /** The text of line u of the table, without its line feed. */
  function CostLine(u: nat, c: Cost): (r: string)
    ensures '\n' !in r && |r| > 0 && r[|r| - 1] != '\r'
  {
    var r := "dist(" + Text.NatToString(u) + ") = " + FormatCost(c);
    assert r[|r| - 1] == FormatCost(c)[|FormatCost(c)| - 1];
    r
  }

  /** The lines `dist(u) = <cost>` for u from `from` to the end, each with its line feed. */
  function FormatFrom(dist: seq<Cost>, from: nat): string
    requires from <= |dist|
    decreases |dist| - from
  {
    if from == |dist| then ""
    else CostLine(from, dist[from]) + "\n" + FormatFrom(dist, from + 1)
  }

  /**
   * `format_costs`: one line per vertex, in index order.  Read back with
   * `lines()`, the output is exactly the sequence of `CostLine`s.
   */
  function FormatCosts(dist: seq<Cost>): (r: string)
    ensures Text.Lines(r) == seq(|dist|, u requires 0 <= u < |dist| => CostLine(u, dist[u]))
    ensures |dist| == 0 <==> r == ""
  {
    var lines := seq(|dist|, u requires 0 <= u < |dist| => CostLine(u, dist[u]));
    FormatFromJoin(dist, 0);
    assert lines[0..] == lines;
    LinesOfTerminated(lines);
    FormatFrom(dist, 0)
  }

  /** The line-feed-terminated concatenation of a sequence of lines. */
  function Terminated(lines: seq<string>): string
  {
    if |lines| == 0 then "" else lines[0] + "\n" + Terminated(lines[1..])
  }

  lemma {:induction false} FormatFromJoin(dist: seq<Cost>, from: nat)
    requires from <= |dist|
    ensures FormatFrom(dist, from)
         == Terminated(seq(|dist|, u requires 0 <= u < |dist| => CostLine(u, dist[u]))[from..])
    decreases |dist| - from
  {
    var lines := seq(|dist|, u requires 0 <= u < |dist| => CostLine(u, dist[u]));
    if from < |dist| {
      FormatFromJoin(dist, from + 1);
      assert lines[from..][1..] == lines[from + 1..];
    }
  }

  /** Terminated lines are the join of the lines followed by one empty piece. */
  lemma {:induction false} TerminatedJoin(lines: seq<string>)
    ensures Terminated(lines) == Text.Join(lines + [""], '\n')
  {
    if |lines| > 0 {
      TerminatedJoin(lines[1..]);
      assert (lines + [""])[1..] == lines[1..] + [""];
    }
  }

  /** `lines()` recovers every line of a terminated concatenation. */
  lemma LinesOfTerminated(lines: seq<string>)
    requires forall i :: 0 <= i < |lines| ==> '\n' !in lines[i]
    requires forall i :: 0 <= i < |lines| ==> |lines[i]| > 0 && lines[i][|lines[i]| - 1] != '\r'
    ensures Text.Lines(Terminated(lines)) == lines
  {
    TerminatedJoin(lines);
    var parts := lines + [""];
    assert forall i :: 0 <= i < |parts| ==> '\n' !in parts[i];
    Text.SplitJoin(parts, '\n');
  }
}
