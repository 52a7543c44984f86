/**
 * `parse_answers` (src/utility/testing.rs): the expected answers of a
 * test file, one `sink cost` pair per line.  The same line format is
 * read by the walk and path `parse_query` of tests/utility/problem.rs.
 */
module Testing {
  import opened Wrappers
  import opened Costs
  import Text
  import Format

  /**
   * One line of an answer file: the first space-separated word is the
   * sink, parsed as usize, and the second is the cost, read with
   * `Cost::from_str`, which never fails.  None stands for the panic of an
   * unparsable sink or a missing second word.
   */
  function AnswerOf(line: string): Option<(nat, Cost)>
  {
    var words := Text.Split(line, ' ');
    match Text.ParseU64(words[0])
    case None => None
    case Some(sink) =>
      if |words| < 2 then None else Some((sink, FromStr(words[1])))
  }

  /** The first i lines have been read, and `ret` holds their answers. */
  ghost predicate Answered(lines: seq<string>, ret: seq<(nat, Cost)>, i: nat)
  {
    i <= |lines| && |ret| == i && forall k :: 0 <= k < i ==> AnswerOf(lines[k]) == Some(ret[k])
  }

  lemma AnsweredStep(lines: seq<string>, ret: seq<(nat, Cost)>, i: nat, answer: (nat, Cost))
    requires Answered(lines, ret, i) && i < |lines| && AnswerOf(lines[i]) == Some(answer)
    ensures Answered(lines, ret + [answer], i + 1)
  {
  }

  /**
   * `parse_answers(ans)`: the answer of every line of `ans`, in order, or
   * None when some line makes the parser panic.
   */
  method ParseAnswers(ans: string) returns (r: Option<seq<(nat, Cost)>>)
    ensures r.Some? <==> forall i :: 0 <= i < |Text.Lines(ans)| ==> AnswerOf(Text.Lines(ans)[i]).Some?
    ensures r.Some? ==> Answered(Text.Lines(ans), r.value, |Text.Lines(ans)|)
  {
    var lines := Text.Lines(ans);
    var ret: seq<(nat, Cost)> := [];
    var i := 0;
    while i < |lines|
      invariant Answered(lines, ret, i)
    {
      var answer := AnswerOf(lines[i]);
      if answer.None? {
        return None;
      }
      AnsweredStep(lines, ret, i, answer.value);
      ret := ret + [answer.value];
      i := i + 1;
    }
    return Some(ret);
  }

  /** The line an answer file holds for a sink and its expected cost. */
  function AnswerLine(sink: nat, cost: Cost): (r: string)
    ensures '\n' !in r && |r| > 0 && r[|r| - 1] != '\r'
  {
    var r := Text.NatToString(sink) + " " + Format.FormatCost(cost);
    assert r[|r| - 1] == Format.FormatCost(cost)[|Format.FormatCost(cost)| - 1];
    r
  }

  /** Reading a written answer line gives the sink and the cost back. */
  lemma AnswerLineRoundTrip(sink: nat, cost: Cost)
    requires sink <= Text.U64_MAX
    requires cost.Finite? ==> cost.n <= Text.U64_MAX
    ensures AnswerOf(AnswerLine(sink, cost)) == Some((sink, cost))
  {
    var sinkWord := Text.NatToString(sink);
    var costWord := Format.FormatCost(cost);
    Text.NatToStringOnlyDigits(sink, ' ');
    assert ' ' !in costWord by {
      if cost.Finite? {
        Text.NatToStringOnlyDigits(cost.n, ' ');
      }
    }
    Text.SplitJoin([sinkWord, costWord], ' ');
    assert Text.Join([sinkWord, costWord], ' ') == AnswerLine(sink, cost);
    Text.ParseNatToString(sink);
    FromStrDebug(cost);
  }

  /** A line holding only a sink has no second word, so `parse_answers` panics on it. */
  lemma MissingCostPanics(sink: nat)
    ensures AnswerOf(Text.NatToString(sink)) == None
  {
    Text.NatToStringOnlyDigits(sink, ' ');
    Text.SplitNoSep(Text.NatToString(sink), ' ');
  }

  /** A second word that is not a u64 number is read as an infinite cost. */
  lemma UnparsableCostIsInfinite(sink: nat, word: string)
    requires sink <= Text.U64_MAX
    requires ' ' !in word && Text.ParseU64(word).None?
    ensures AnswerOf(Text.NatToString(sink) + " " + word) == Some((sink, Infinite))
  {
    var sinkWord := Text.NatToString(sink);
    Text.NatToStringOnlyDigits(sink, ' ');
    Text.SplitJoin([sinkWord, word], ' ');
    assert Text.Join([sinkWord, word], ' ') == sinkWord + " " + word;
    Text.ParseNatToString(sink);
  }

  /** The text of an answer file: every answer on its own line-feed-terminated line. */
  function AnswersText(answers: seq<(nat, Cost)>): string
  {
    Format.Terminated(seq(|answers|, i requires 0 <= i < |answers| => AnswerLine(answers[i].0, answers[i].1)))
  }

  /**
   * Every line of a written answer file parses back to its answer, so
   * `parse_answers` returns exactly the answers that were written.
   */
  lemma AnswersRoundTrip(answers: seq<(nat, Cost)>)
    requires forall i :: 0 <= i < |answers| ==> answers[i].0 <= Text.U64_MAX
    requires forall i :: 0 <= i < |answers| ==> (answers[i].1.Finite? ==> answers[i].1.n <= Text.U64_MAX)
    ensures |Text.Lines(AnswersText(answers))| == |answers|
    ensures forall i :: 0 <= i < |answers| ==> AnswerOf(Text.Lines(AnswersText(answers))[i]) == Some(answers[i])
  {
    var lines := seq(|answers|, i requires 0 <= i < |answers| => AnswerLine(answers[i].0, answers[i].1));
    Format.LinesOfTerminated(lines);
    forall i | 0 <= i < |answers|
      ensures AnswerOf(lines[i]) == Some(answers[i])
    {
      AnswerLineRoundTrip(answers[i].0, answers[i].1);
    }
  }
}
