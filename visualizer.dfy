/**
 * `read_graph` (data/visualizer.py): a graph file read into a networkx
 * graph.  The first line is a vertex count that must be an integer and is
 * otherwise ignored; every later line not starting with `%` must hold two
 * integers (an edge) or three (an edge and its weight).
 */
module Visualizer {
  import opened Wrappers
  import Text
  import Nx

  /** The two exceptions `read_graph` can raise: `int()` failing, and its own `IOError`. */
  datatype ReadError = ValueError | IOError

  /** What one line after the first does: nothing, add an edge, or raise. */
  datatype LineKind = Comment | Add(edge: Nx.Added<int>) | Raises(error: ReadError)

  /** How `read_graph` treats one line after the first; only a line starting with `%` is skipped. */
  function Classify(line: string): (r: LineKind)
    ensures r.Comment? <==> Text.StartsWith(line, '%')
  {
    if Text.StartsWith(line, '%') then Comment
    else
      match Text.ParseEach(Text.SplitWs(line), Text.ParseInt)
      case None => Raises(ValueError)
      case Some(uv) =>
        if |uv| == 2 then Add((uv[0], uv[1], None))
        else if |uv| == 3 then Add((uv[0], uv[1], Some(uv[2])))
        else Raises(IOError)
  }

  /**
   * The cases of one line, word by word: a comment is skipped; a word that
   * is not an integer raises ValueError; two or three integers add an edge
   * (the third its weight); any other count raises IOError.
   */
  lemma ClassifyCases(line: string)
    ensures var ws := Text.SplitWs(line);
      && (Text.StartsWith(line, '%') ==> Classify(line) == Comment)
      && (!Text.StartsWith(line, '%') && (exists i :: 0 <= i < |ws| && Text.ParseInt(ws[i]).None?) ==>
            Classify(line) == Raises(ValueError))
      && (!Text.StartsWith(line, '%') && (forall i :: 0 <= i < |ws| ==> Text.ParseInt(ws[i]).Some?) ==>
            Classify(line) ==
              if |ws| == 2 then Add((Text.ParseInt(ws[0]).value, Text.ParseInt(ws[1]).value, None))
              else if |ws| == 3 then Add((Text.ParseInt(ws[0]).value, Text.ParseInt(ws[1]).value, Some(Text.ParseInt(ws[2]).value)))
              else Raises(IOError))
  {
    Text.ParseEachSome(Text.SplitWs(line), Text.ParseInt);
  }

  function KindsOf(lines: seq<string>): (r: seq<LineKind>)
    ensures |r| == |lines|
  {
    seq(|lines|, k requires 0 <= k < |lines| => Classify(lines[k]))
  }

  /** No line raises. */
  predicate Clean(kinds: seq<LineKind>)
  {
    forall k :: 0 <= k < |kinds| ==> !kinds[k].Raises?
  }

  /** The edges the lines add, in order. */
  function EdgesOf(kinds: seq<LineKind>): (r: seq<Nx.Added<int>>)
    ensures |r| <= |kinds|
  {
    if |kinds| == 0 then []
    else
      var last := kinds[|kinds| - 1];
      EdgesOf(kinds[..|kinds| - 1]) + (if last.Add? then [last.edge] else [])
  }

  /**
   * `read_graph(path)` on the lines of the file: a header that is not an
   * integer (an empty file included) raises ValueError; otherwise the
   * lines are taken in order and the first one that raises ends the read;
   * when none does, the graph is every edge added in turn to an empty one.
   */
  method ReadGraph(lines: seq<string>) returns (r: Result<Nx.Graph<int>, ReadError>)
    ensures (|lines| == 0 || Text.ParseInt(lines[0]).None?) ==> r == Err(ValueError)
    ensures r.Ok? <==> |lines| > 0 && Text.ParseInt(lines[0]).Some? && Clean(KindsOf(lines[1..]))
    ensures r.Ok? ==> r.value == Nx.AddEdges(Nx.Empty(), EdgesOf(KindsOf(lines[1..])))
    ensures r.Err? && |lines| > 0 && Text.ParseInt(lines[0]).Some? ==>
      exists j :: 0 <= j < |lines| - 1 && Clean(KindsOf(lines[1..])[..j]) && KindsOf(lines[1..])[j] == Raises(r.error)
  {
    if |lines| == 0 || Text.ParseInt(lines[0]).None? {
      return Err(ValueError);
    }
    var rest := lines[1..];
    ghost var kinds := KindsOf(rest);
    var g := Nx.Empty();
    for i := 0 to |rest|
      invariant Clean(kinds[..i])
      invariant g == Nx.AddEdges(Nx.Empty(), EdgesOf(kinds[..i]))
    {
      var line := rest[i];
      assert kinds[i] == Classify(line);
      if Text.StartsWith(line, '%') {
        assert kinds[i] == Comment;
        ReadStep(kinds, i);
        assert EdgesOf(kinds[..i + 1]) == EdgesOf(kinds[..i]) + [];
        assert EdgesOf(kinds[..i]) + [] == EdgesOf(kinds[..i]);
      } else {
        var uv := Text.ParseEach(Text.SplitWs(line), Text.ParseInt);
        if uv.None? {
          assert kinds[i] == Raises(ValueError);
          return Err(ValueError);
        }
        var e: Nx.Added<int>;
        if |uv.value| == 2 {
          e := (uv.value[0], uv.value[1], None);
        } else if |uv.value| == 3 {
          e := (uv.value[0], uv.value[1], Some(uv.value[2]));
        } else {
          assert kinds[i] == Raises(IOError);
          return Err(IOError);
        }
        assert kinds[i] == Add(e);
        ghost var before := EdgesOf(kinds[..i]);
        ReadStep(kinds, i);
        assert EdgesOf(kinds[..i + 1]) == before + [e];
        Nx.AddEdgesSnoc(Nx.Empty(), before, e);
        g := Nx.AddEdge(g, e.0, e.1, e.2);
        assert g == Nx.AddEdges(Nx.Empty(), before + [e]);
        assert g == Nx.AddEdges(Nx.Empty(), EdgesOf(kinds[..i + 1]));
      }
    }
    assert kinds[..|rest|] == kinds;
    return Ok(g);
  }

  /** One more line read: still nothing raised, and its edge, if any, appended. */
  lemma ReadStep(kinds: seq<LineKind>, i: nat)
    requires i < |kinds| && Clean(kinds[..i]) && !kinds[i].Raises?
    ensures Clean(kinds[..i + 1])
    ensures EdgesOf(kinds[..i + 1]) == EdgesOf(kinds[..i]) + (if kinds[i].Add? then [kinds[i].edge] else [])
  {
    assert kinds[..i + 1][..i] == kinds[..i];
  }

  /** The line adds an edge between x and y, in either direction. */
  predicate Names(kind: LineKind, x: int, y: int)
  {
    kind.Add? && ((kind.edge.0 == x && kind.edge.1 == y) || (kind.edge.0 == y && kind.edge.1 == x))
  }

  /** The line adds an edge with x as an end. */
  predicate Mentions(kind: LineKind, x: int)
  {
    kind.Add? && (kind.edge.0 == x || kind.edge.1 == x)
  }

  lemma {:induction false} EdgesOfAdds(kinds: seq<LineKind>, x: int, y: int)
    ensures Nx.Adds(EdgesOf(kinds), x, y) <==> exists k :: 0 <= k < |kinds| && Names(kinds[k], x, y)
  {
    if |kinds| > 0 {
      var init := kinds[..|kinds| - 1];
      EdgesOfAdds(init, x, y);
      var es := EdgesOf(kinds);
      if Nx.Adds(es, x, y) {
        var k :| 0 <= k < |es| && ((es[k].0 == x && es[k].1 == y) || (es[k].0 == y && es[k].1 == x));
        if k < |EdgesOf(init)| {
          assert es[k] == EdgesOf(init)[k];
          var j :| 0 <= j < |init| && Names(init[j], x, y);
          assert init[j] == kinds[j];
        } else {
          assert Names(kinds[|kinds| - 1], x, y);
        }
      }
      if exists k :: 0 <= k < |kinds| && Names(kinds[k], x, y) {
        var k :| 0 <= k < |kinds| && Names(kinds[k], x, y);
        if k < |init| {
          assert Names(init[k], x, y);
          var j :| 0 <= j < |EdgesOf(init)| && ((EdgesOf(init)[j].0 == x && EdgesOf(init)[j].1 == y) || (EdgesOf(init)[j].0 == y && EdgesOf(init)[j].1 == x));
          assert es[j] == EdgesOf(init)[j];
        } else {
          assert es[|es| - 1] == kinds[k].edge;
        }
      }
    }
  }

  lemma {:induction false} EdgesOfTouches(kinds: seq<LineKind>, x: int)
    ensures Nx.Touches(EdgesOf(kinds), x) <==> exists k :: 0 <= k < |kinds| && Mentions(kinds[k], x)
  {
    if |kinds| > 0 {
      var init := kinds[..|kinds| - 1];
      EdgesOfTouches(init, x);
      var es := EdgesOf(kinds);
      if Nx.Touches(es, x) {
        var k :| 0 <= k < |es| && (es[k].0 == x || es[k].1 == x);
        if k < |EdgesOf(init)| {
          assert es[k] == EdgesOf(init)[k];
          var j :| 0 <= j < |init| && Mentions(init[j], x);
          assert init[j] == kinds[j];
        } else {
          assert Mentions(kinds[|kinds| - 1], x);
        }
      }
      if exists k :: 0 <= k < |kinds| && Mentions(kinds[k], x) {
        var k :| 0 <= k < |kinds| && Mentions(kinds[k], x);
        if k < |init| {
          assert Mentions(init[k], x);
          var j :| 0 <= j < |EdgesOf(init)| && (EdgesOf(init)[j].0 == x || EdgesOf(init)[j].1 == x);
          assert es[j] == EdgesOf(init)[j];
        } else {
          assert es[|es| - 1] == kinds[k].edge;
        }
      }
    }
  }

  /**
   * The graph read from a file that raises nothing is simple, joins x and
   * y exactly when some line names that pair, and holds x as a node
   * exactly when some edge line names it.
   */
  lemma ReadGraphContents(lines: seq<string>, g: Nx.Graph<int>, x: int, y: int)
    requires g == Nx.AddEdges(Nx.Empty(), EdgesOf(KindsOf(lines)))
    ensures Nx.Simple(g)
    ensures Nx.HasEdge(g, x, y) <==> exists k :: 0 <= k < |lines| && Names(Classify(lines[k]), x, y)
    ensures x in g.nodes <==> exists k :: 0 <= k < |lines| && Mentions(Classify(lines[k]), x)
  {
    var kinds := KindsOf(lines);
    Nx.AddEdgesSimple(Nx.Empty(), EdgesOf(kinds));
    Nx.AddEdgesJoins(Nx.Empty(), EdgesOf(kinds), x, y);
    EdgesOfAdds(kinds, x, y);
    Nx.AddEdgesNodes(Nx.Empty(), EdgesOf(kinds), x);
    EdgesOfTouches(kinds, x);
    assert forall k :: 0 <= k < |lines| ==> kinds[k] == Classify(lines[k]);
  }

  /** The decimal words of an edge and its weight. */
  function EdgeWords(u: int, v: int, w: Option<int>): seq<string>
  {
    [Text.IntToString(u), Text.IntToString(v)] + (if w.Some? then [Text.IntToString(w.value)] else [])
  }

  /** The line a graph file holds for an edge, with its weight when it has one. */
  function EdgeLine(u: int, v: int, w: Option<int>): string
  {
    Text.Join(EdgeWords(u, v, w), ' ') + "\n"
  }

  lemma EdgeLineWords(u: int, v: int, w: Option<int>)
    ensures Text.SplitWs(EdgeLine(u, v, w)) == EdgeWords(u, v, w)
    ensures !Text.StartsWith(EdgeLine(u, v, w), '%')
  {
    var words := EdgeWords(u, v, w);
    forall i | 0 <= i < |words|
      ensures |words[i]| > 0 && Text.NoSpace(words[i])
    {
      Text.IntToStringWord(if i == 0 then u else if i == 1 then v else w.value);
    }
    Text.SplitWsLine(words);
    Text.IntToStringWord(u);
    assert EdgeLine(u, v, w)[0] == Text.IntToString(u)[0];
  }

  lemma EdgeWordsParse(u: int, v: int, w: Option<int>)
    ensures Text.ParseEach(EdgeWords(u, v, w), Text.ParseInt) == Some([u, v] + (if w.Some? then [w.value] else []))
  {
    var words := EdgeWords(u, v, w);
    var nums := [u, v] + (if w.Some? then [w.value] else []);
    forall i | 0 <= i < |words|
      ensures Text.ParseInt(words[i]) == Some(nums[i])
    {
      assert words[i] == Text.IntToString(nums[i]);
      Text.ParseIntToString(nums[i]);
    }
    Text.ParseEachAll(words, Text.ParseInt, nums);
  }

  /** A line that is not a comment and whose words are two integers adds that edge, unweighted. */
  lemma ClassifyPair(line: string, u: int, v: int)
    requires !Text.StartsWith(line, '%')
    requires Text.ParseEach(Text.SplitWs(line), Text.ParseInt) == Some([u, v])
    ensures Classify(line) == Add((u, v, None))
  {
  }

  /** A line that is not a comment and whose words are three integers adds that edge with the third as weight. */
  lemma ClassifyTriple(line: string, u: int, v: int, w: int)
    requires !Text.StartsWith(line, '%')
    requires Text.ParseEach(Text.SplitWs(line), Text.ParseInt) == Some([u, v, w])
    ensures Classify(line) == Add((u, v, Some(w)))
  {
  }

  lemma EdgeLineParsed(u: int, v: int, w: Option<int>)
    ensures !Text.StartsWith(EdgeLine(u, v, w), '%')
    ensures Text.ParseEach(Text.SplitWs(EdgeLine(u, v, w)), Text.ParseInt) == Some([u, v] + (if w.Some? then [w.value] else []))
  {
    EdgeLineWords(u, v, w);
    EdgeWordsParse(u, v, w);
  }

  lemma PairLineRead(u: int, v: int)
    ensures Classify(EdgeLine(u, v, None)) == Add((u, v, None))
  {
    EdgeLineParsed(u, v, None);
    assert [u, v] + [] == [u, v];
    ClassifyPair(EdgeLine(u, v, None), u, v);
  }

  lemma TripleLineRead(u: int, v: int, w: int)
    ensures Classify(EdgeLine(u, v, Some(w))) == Add((u, v, Some(w)))
  {
    EdgeLineParsed(u, v, Some(w));
    assert [u, v] + [w] == [u, v, w];
    ClassifyTriple(EdgeLine(u, v, Some(w)), u, v, w);
  }

  /** A written edge line is read back as the same edge and weight. */
  lemma EdgeLineRead(u: int, v: int, w: Option<int>)
    ensures Classify(EdgeLine(u, v, w)) == Add((u, v, w))
  {
    if w.Some? {
      TripleLineRead(u, v, w.value);
    } else {
      PairLineRead(u, v);
    }
  }
}
