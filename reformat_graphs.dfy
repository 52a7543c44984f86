/**
 * `reformat` (data/reformat_graphs.py): a vertex file and an edge file
 * merged into one graph file.  The two inputs are the `readlines()` of
 * the files, the output is the sequence of strings written, in order.
 */
module ReformatGraphs {
  import Text
  import Format

  /** The header written first: the number of vertex lines and of edge lines. */
  function Header(vertices: nat, edges: nat): string
  {
    Text.NatToString(vertices) + " " + Text.NatToString(edges) + "\n"
  }

  /** An edge line `_ u v w` rewritten as `u v w`: the first field is dropped. */
  function EdgeText(fields: seq<string>): string
    requires |fields| == 4
  {
    fields[1] + " " + fields[2] + " " + fields[3] + "\n"
  }

  /** The header and the vertex lines lead the output. */
  ghost predicate Led(out: seq<string>, vs: seq<string>, edges: nat)
  {
    |out| >= 1 + |vs| && out[0] == Header(|vs|, edges) && out[1..1 + |vs|] == vs
  }

  /** The whitespace-separated fields of every edge line (`l.split()`). */
  function FieldsOf(es: seq<string>): (r: seq<seq<string>>)
    ensures |r| == |es|
  {
    seq(|es|, k requires 0 <= k < |es| => Text.SplitWs(es[k]))
  }

  /** After the header and the vertex lines, one write per edge line, in order. */
  ghost predicate EdgesWritten(out: seq<string>, vs: seq<string>, fields: seq<seq<string>>, j: nat)
  {
    && Led(out, vs, |fields|)
    && j <= |fields|
    && |out| == 1 + |vs| + j
    && forall k :: 0 <= k < j ==> |fields[k]| == 4 && out[1 + |vs| + k] == EdgeText(fields[k])
  }

  lemma EdgeWritten(out: seq<string>, vs: seq<string>, fields: seq<seq<string>>, j: nat)
    requires EdgesWritten(out, vs, fields, j) && j < |fields| && |fields[j]| == 4
    ensures EdgesWritten(out + [EdgeText(fields[j])], vs, fields, j + 1)
  {
    var out' := out + [EdgeText(fields[j])];
    assert out'[1..1 + |vs|] == out[1..1 + |vs|];
  }

  /**
   * `reformat(vertices, edges, output)`: the header, every vertex line
   * verbatim, then every edge line without its first field.  An edge line
   * that does not have exactly four fields raises on unpacking, after
   * everything before it has been written; `ok` is false then.
   */
  method Reformat(vs: seq<string>, es: seq<string>) returns (out: seq<string>, ok: bool)
    ensures ok <==> forall k :: 0 <= k < |es| ==> |FieldsOf(es)[k]| == 4
    ensures Led(out, vs, |es|)
    ensures ok ==> EdgesWritten(out, vs, FieldsOf(es), |es|)
    ensures !ok ==> exists j :: (0 <= j < |es| && EdgesWritten(out, vs, FieldsOf(es), j) && |FieldsOf(es)[j]| != 4)
  {
    out := [Header(|vs|, |es|)];
    for i := 0 to |vs|
      invariant out == [Header(|vs|, |es|)] + vs[..i]
    {
      out := out + [vs[i]];
    }
    assert out[1..1 + |vs|] == vs;
    ghost var fields := FieldsOf(es);
    for j := 0 to |es|
      invariant EdgesWritten(out, vs, fields, j)
    {
      var words := Text.SplitWs(es[j]);
      assert words == fields[j];
      if |words| != 4 {
        return out, false;
      }
      EdgeWritten(out, vs, fields, j);
      out := out + [EdgeText(words)];
    }
    return out, true;
  }

  /** Everything written, as one text. */
  function Concat(out: seq<string>): string
  {
    if |out| == 0 then "" else out[0] + Concat(out[1..])
  }

  /** Writing lines that each end in a line feed is writing the terminated lines. */
  lemma {:induction false} ConcatTerminated(bodies: seq<string>)
    ensures Concat(seq(|bodies|, i requires 0 <= i < |bodies| => bodies[i] + "\n")) == Format.Terminated(bodies)
  {
    if |bodies| > 0 {
      ConcatTerminated(bodies[1..]);
      var out := seq(|bodies|, i requires 0 <= i < |bodies| => bodies[i] + "\n");
      assert out[1..] == seq(|bodies[1..]|, i requires 0 <= i < |bodies[1..]| => bodies[1..][i] + "\n");
    }
  }

  /** An edge line `id u v w` of non-empty, space-free fields is written as `u v w`. */
  lemma EdgeLineRewritten(id: string, u: string, v: string, w: string)
    requires |id| > 0 && |u| > 0 && |v| > 0 && |w| > 0
    requires Text.NoSpace(id) && Text.NoSpace(u) && Text.NoSpace(v) && Text.NoSpace(w)
    ensures |Text.SplitWs(Text.Join([id, u, v, w], ' '))| == 4
    ensures EdgeText(Text.SplitWs(Text.Join([id, u, v, w], ' '))) == u + " " + v + " " + w + "\n"
  {
    var fields := [id, u, v, w];
    assert forall i :: 0 <= i < 4 ==> |fields[i]| > 0 && Text.NoSpace(fields[i]);
    Text.SplitWsJoin(fields);
  }

  /**
   * When every vertex line ends in its line feed, the written file has
   * exactly one line per write: 1 + |vertices| + |edges| lines, in the
   * order of the inputs.
   */
  lemma OutputLines(out: seq<string>, bodies: seq<string>)
    requires |bodies| == |out|
    requires forall i :: 0 <= i < |out| ==> out[i] == bodies[i] + "\n"
    requires forall i :: 0 <= i < |bodies| ==> '\n' !in bodies[i] && |bodies[i]| > 0 && bodies[i][|bodies[i]| - 1] != '\r'
    ensures Text.Lines(Concat(out)) == bodies
  {
    assert out == seq(|bodies|, i requires 0 <= i < |bodies| => bodies[i] + "\n");
    ConcatTerminated(bodies);
    Format.LinesOfTerminated(bodies);
  }
}
