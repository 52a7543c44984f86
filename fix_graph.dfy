/**
 * data/fix_graph.py: a graph file relabelled and deduplicated.  Every
 * token of an edge line, the weight included, is given an id 0, 1, 2, ...
 * in the order it is first seen; comment lines are kept; the adjacency is
 * a symmetric map of sets, so a repeated edge is stored once; the file is
 * then rewritten as the comments, the number of ids, and every stored
 * edge once as `u v` or `u v w` with u < v.  The lines read are the
 * `readlines()` of the file and the output is the sequence of strings
 * written, in order.
 */
module FixGraph {
  import opened Wrappers
  import Text

  /** The dict `id`: label to id. */
  type Ids = map<string, nat>

  /** The dict `graph`: vertex to its set of (neighbour, weight) pairs. */
  type Adj = map<nat, set<(nat, Option<nat>)>>

  /** One written edge: u, v and the optional weight. */
  type Row = (nat, nat, Option<nat>)

  /** Every key of `m1` keeps its value in `m2`. */
  ghost predicate Extends(m1: Ids, m2: Ids)
  {
    forall k :: k in m1 ==> k in m2 && m2[k] == m1[k]
  }

  /** The ids are 0 .. |id| - 1, each given to one label. */
  ghost predicate Dense(id: Ids)
  {
    && (forall a :: a in id ==> id[a] < |id|)
    && (forall a, b :: a in id && b in id && id[a] == id[b] ==> a == b)
  }

  /** `lookup(u)`: the dict afterwards and the id returned. */
  function Look(id: Ids, u: string): (Ids, nat)
  {
    if u in id then (id, id[u]) else (id[u := |id|], |id|)
  }

  /**
   * A label already seen keeps its id; a new one gets the next id, |id|.
   * Either way the ids stay dense and the old ones unchanged.
   */
  lemma LookDense(id: Ids, u: string)
    requires Dense(id)
    ensures var (id', x) := Look(id, u);
      && Dense(id') && Extends(id, id')
      && u in id' && id'[u] == x
      && (forall t :: t in id' <==> t in id || t == u)
      && (u in id ==> id' == id)
      && (u !in id ==> x == |id| && |id'| == |id| + 1)
  {
    if u !in id {
      var id' := id[u := |id|];
      assert |id'| == |id| + 1;
      forall a, b | a in id' && b in id' && id'[a] == id'[b]
        ensures a == b
      {
        if a != u && b != u {
          assert id[a] == id[b];
        }
      }
    }
  }

  /** `list(map(lookup, tokens))`: the dict afterwards and the ids, in order. */
  function LookAll(id: Ids, tokens: seq<string>): (r: (Ids, seq<nat>))
    ensures |r.1| == |tokens|
  {
    if |tokens| == 0 then (id, [])
    else
      var prev := LookAll(id, tokens[..|tokens| - 1]);
      var next := Look(prev.0, tokens[|tokens| - 1]);
      (next.0, prev.1 + [next.1])
  }

  /** Looking up a list of labels keeps the ids dense and extends the dict by exactly the new labels. */
  lemma {:induction false} LookAllDense(id: Ids, tokens: seq<string>)
    requires Dense(id)
    ensures var r := LookAll(id, tokens);
      && Dense(r.0) && Extends(id, r.0) && |r.0| >= |id|
      && (forall t :: t in r.0 <==> t in id || t in tokens)
  {
    if |tokens| > 0 {
      var init := tokens[..|tokens| - 1];
      var last := tokens[|tokens| - 1];
      LookAllDense(id, init);
      LookDense(LookAll(id, init).0, last);
      assert tokens == init + [last];
    }
  }

  /** Every token gets the id its label ends up with, so equal labels get equal ids. */
  lemma {:induction false} LookAllIds(id: Ids, tokens: seq<string>)
    requires Dense(id)
    ensures var r := LookAll(id, tokens);
      forall k :: 0 <= k < |tokens| ==> tokens[k] in r.0 && r.1[k] == r.0[tokens[k]]
  {
    if |tokens| > 0 {
      var init := tokens[..|tokens| - 1];
      var last := tokens[|tokens| - 1];
      LookAllIds(id, init);
      LookAllDense(id, init);
      var prev := LookAll(id, init);
      LookDense(prev.0, last);
      var r := LookAll(id, tokens);
      forall k | 0 <= k < |tokens|
        ensures tokens[k] in r.0 && r.1[k] == r.0[tokens[k]]
      {
        if k < |init| {
          assert tokens[k] == init[k];
          assert r.1[k] == prev.1[k];
        }
      }
    }
  }

  /** The dict after a prefix of the labels is extended by the dict after all of them. */
  lemma {:induction false} LookAllPrefix(id: Ids, tokens: seq<string>, j: nat)
    requires Dense(id) && j <= |tokens|
    ensures Dense(LookAll(id, tokens[..j]).0)
    ensures Extends(LookAll(id, tokens[..j]).0, LookAll(id, tokens).0)
    decreases |tokens| - j
  {
    LookAllDense(id, tokens[..j]);
    if j < |tokens| {
      LookAllPrefix(id, tokens, j + 1);
      assert tokens[..j + 1][..j] == tokens[..j];
      LookDense(LookAll(id, tokens[..j]).0, tokens[j]);
    } else {
      assert tokens[..j] == tokens;
    }
  }

  /** A label not known after a prefix is given the size of the dict after that prefix. */
  lemma NewLabel(id: Ids, tokens: seq<string>, j: nat)
    requires Dense(id) && j < |tokens|
    requires tokens[j] !in LookAll(id, tokens[..j]).0
    ensures LookAll(id, tokens).1[j] == |LookAll(id, tokens[..j]).0|
  {
    var before := LookAll(id, tokens[..j]);
    var mid := LookAll(id, tokens[..j + 1]);
    assert tokens[..j + 1][..j] == tokens[..j];
    assert mid.0 == before.0[tokens[j] := |before.0|];
    LookAllIds(id, tokens);
    LookAllPrefix(id, tokens, j + 1);
  }

  /** A token before position j has an id below the size of the dict after the first j tokens. */
  lemma OldLabel(id: Ids, tokens: seq<string>, i: nat, j: nat)
    requires Dense(id) && i < j <= |tokens|
    ensures LookAll(id, tokens).1[i] < |LookAll(id, tokens[..j]).0|
  {
    var before := LookAll(id, tokens[..j]);
    LookAllDense(id, tokens[..j]);
    assert tokens[i] == tokens[..j][i];
    assert tokens[i] in before.0;
    LookAllIds(id, tokens);
    LookAllPrefix(id, tokens, j);
  }

  /**
   * First-seen order: a label met for the first time at position j gets
   * the number of labels known just before it, which is more than the id
   * of every token before it.
   */
  lemma FirstSeen(id: Ids, tokens: seq<string>, j: nat)
    requires Dense(id) && j < |tokens|
    requires tokens[j] !in id && tokens[j] !in tokens[..j]
    ensures LookAll(id, tokens).1[j] == |LookAll(id, tokens[..j]).0|
    ensures forall i :: 0 <= i < j ==> LookAll(id, tokens).1[i] < LookAll(id, tokens).1[j]
  {
    LookAllDense(id, tokens[..j]);
    NewLabel(id, tokens, j);
    forall i | 0 <= i < j
      ensures LookAll(id, tokens).1[i] < LookAll(id, tokens).1[j]
    {
      OldLabel(id, tokens, i, j);
    }
  }

  /** A stripped line starting with `%` or `#` is kept for the output. */
  predicate Kept(t: string)
  {
    Text.StartsWith(t, '%') || Text.StartsWith(t, '#')
  }

  /** `t.replace(',', ' ')`. */
  function Commas(t: string): string
  {
    seq(|t|, i requires 0 <= i < |t| => if t[i] == ',' then ' ' else t[i])
  }

  /** `t.replace(',', ' ').split(' ')`: empty tokens between repeated separators are kept. */
  function Tokens(t: string): seq<string>
  {
    Text.Split(Commas(t), ' ')
  }

  /** The program's three globals: `id`, `graph` and the kept lines `start`. */
  datatype State = State(id: Ids, graph: Adj, start: seq<string>)

  /** The globals before the first line. */
  function Initial(): State
  {
    State(map[], map[], [])
  }

  /** `graph.setdefault(u, set()).add(p)`. */
  function Insert(graph: Adj, u: nat, p: (nat, Option<nat>)): Adj
  {
    graph[u := (if u in graph then graph[u] else {}) + {p}]
  }

  /** The two insertions of one undirected edge. */
  function Link(graph: Adj, u: nat, v: nat, w: Option<nat>): Adj
  {
    Insert(Insert(graph, u, (v, w)), v, (u, w))
  }

  /**
   * One line of the input.  A kept line is appended, stripped, to `start`;
   * any other line is split into tokens and recorded.
   */
  function Step(st: State, line: string): Result<State, seq<nat>>
  {
    var t := Text.Trim(line);
    if Kept(t) then Ok(st.(start := st.start + [t])) else Record(st, Tokens(t))
  }

  /**
   * The tokens of a line that is not a comment: at most one token is
   * skipped; otherwise every token is looked up, and two ids make an
   * unweighted edge, three a weighted one, and any other number raises,
   * carrying the ids of the line.
   */
  function Record(st: State, tokens: seq<string>): Result<State, seq<nat>>
  {
    if |tokens| <= 1 then Ok(st)
    else
      var r := LookAll(st.id, tokens);
      var xs := r.1;
      if |xs| == 2 then Ok(State(r.0, Link(st.graph, xs[0], xs[1], None), st.start))
      else if |xs| == 3 then Ok(State(r.0, Link(st.graph, xs[0], xs[1], Some(xs[2])), st.start))
      else Err(xs)
  }

  /** The read loop over all lines from a given state; the first line that raises ends it. */
  function Process(st: State, lines: seq<string>): Result<State, seq<nat>>
  {
    if |lines| == 0 then Ok(st)
    else
      match Process(st, lines[..|lines| - 1])
      case Err(e) => Err(e)
      case Ok(prev) => Step(prev, lines[|lines| - 1])
  }

  /** Vertex a stores the pair (b, x). */
  ghost predicate Has(graph: Adj, a: nat, b: nat, x: Option<nat>)
  {
    a in graph && (b, x) in graph[a]
  }

  /** Every stored pair is stored in the other direction too. */
  ghost predicate Symmetric(graph: Adj)
  {
    forall a: nat, b: nat, x: Option<nat> :: Has(graph, a, b, x) ==> Has(graph, b, a, x)
  }

  /** Every vertex, neighbour and weight in `graph` is an id below n. */
  ghost predicate Bounded(graph: Adj, n: nat)
  {
    && (forall a :: a in graph ==> a < n)
    && (forall a: nat, b: nat, x: Option<nat> :: Has(graph, a, b, x) ==> b < n && (x.Some? ==> x.value < n))
  }

  /** What the read loop keeps true of the globals. */
  ghost predicate Inv(st: State)
  {
    Dense(st.id) && Symmetric(st.graph) && Bounded(st.graph, |st.id|)
  }

  /** An insertion adds its one pair and nothing else. */
  lemma InsertHas(graph: Adj, u: nat, p: (nat, Option<nat>), a: nat, b: nat, x: Option<nat>)
    ensures Has(Insert(graph, u, p), a, b, x) <==> Has(graph, a, b, x) || (a == u && (b, x) == p)
    ensures a in Insert(graph, u, p) <==> a in graph || a == u
  {
  }

  /** Linking u and v adds the pair in both directions and nothing else. */
  lemma LinkHas(graph: Adj, u: nat, v: nat, w: Option<nat>, a: nat, b: nat, x: Option<nat>)
    ensures Has(Link(graph, u, v, w), a, b, x) <==>
      (Has(graph, a, b, x) || (a == u && b == v && x == w) || (a == v && b == u && x == w))
    ensures a in Link(graph, u, v, w) <==> a in graph || a == u || a == v
  {
    InsertHas(graph, u, (v, w), a, b, x);
    InsertHas(Insert(graph, u, (v, w)), v, (u, w), a, b, x);
  }

  /** Linking two ids below n keeps the adjacency symmetric and bounded. */
  lemma LinkInv(graph: Adj, n: nat, u: nat, v: nat, w: Option<nat>)
    requires Symmetric(graph) && Bounded(graph, n)
    requires u < n && v < n && (w.Some? ==> w.value < n)
    ensures Symmetric(Link(graph, u, v, w)) && Bounded(Link(graph, u, v, w), n)
  {
    var g := Link(graph, u, v, w);
    forall a: nat, b: nat, x: Option<nat> | Has(g, a, b, x)
      ensures Has(g, b, a, x) && b < n && (x.Some? ==> x.value < n)
    {
      LinkHas(graph, u, v, w, a, b, x);
      LinkHas(graph, u, v, w, b, a, x);
    }
    forall a | a in g
      ensures a < n
    {
      LinkHas(graph, u, v, w, a, 0, None);
    }
  }

  /** The edge of a line of two or three tokens keeps the invariant and only adds ids. */
  lemma EdgeInv(st: State, tokens: seq<string>)
    requires Inv(st) && 2 <= |tokens| <= 3
    ensures var r := LookAll(st.id, tokens);
      var w := if |tokens| == 3 then Some(r.1[2]) else None;
      Inv(State(r.0, Link(st.graph, r.1[0], r.1[1], w), st.start)) && Extends(st.id, r.0)
  {
    var r := LookAll(st.id, tokens);
    LookAllDense(st.id, tokens);
    LookAllIds(st.id, tokens);
    assert forall k :: 0 <= k < |tokens| ==> r.1[k] < |r.0|;
    var w := if |tokens| == 3 then Some(r.1[2]) else None;
    LinkInv(st.graph, |r.0|, r.1[0], r.1[1], w);
  }

  /** One line keeps the invariant and only adds ids. */
  lemma StepInv(st: State, line: string)
    requires Inv(st) && Step(st, line).Ok?
    ensures Inv(Step(st, line).value)
    ensures Extends(st.id, Step(st, line).value.id)
  {
    var t := Text.Trim(line);
    if !Kept(t) && |Tokens(t)| > 1 {
      EdgeInv(st, Tokens(t));
    }
  }

  /** The read loop keeps the invariant, starting from the empty globals or any state that has it. */
  lemma {:induction false} ProcessInv(st: State, lines: seq<string>)
    requires Inv(st) && Process(st, lines).Ok?
    ensures Inv(Process(st, lines).value)
    ensures Extends(st.id, Process(st, lines).value.id)
  {
    if |lines| > 0 {
      var init := lines[..|lines| - 1];
      ProcessInv(st, init);
      StepInv(Process(st, init).value, lines[|lines| - 1]);
    }
  }

  /** The empty globals satisfy the invariant. */
  lemma InitialInv()
    ensures Inv(Initial())
  {
    var st := Initial();
    assert forall a: nat, b: nat, x: Option<nat> :: !Has(st.graph, a, b, x);
  }

  /** A line that raises: not a comment, and more than three tokens. */
  predicate Bad(line: string)
  {
    var t := Text.Trim(line);
    !Kept(t) && |Tokens(t)| > 3
  }

  /** One line raises exactly when it is bad. */
  lemma StepOk(st: State, line: string)
    ensures Step(st, line).Ok? <==> !Bad(line)
  {
  }

  /** One line adds itself, stripped, to `start` when it is a comment, and nothing otherwise. */
  lemma StepStart(st: State, line: string)
    requires Step(st, line).Ok?
    ensures Step(st, line).value.start == st.start + (if Kept(Text.Trim(line)) then [Text.Trim(line)] else [])
  {
  }

  /** A line that does not raise. */
  predicate Clean(line: string)
  {
    !Bad(line)
  }

  /** Every element satisfies p, checked from the last one back. */
  predicate Every<T>(xs: seq<T>, p: T -> bool)
  {
    |xs| == 0 || (Every(xs[..|xs| - 1], p) && p(xs[|xs| - 1]))
  }

  lemma {:induction false} EveryAll<T>(xs: seq<T>, p: T -> bool)
    ensures Every(xs, p) <==> forall k :: 0 <= k < |xs| ==> p(xs[k])
  {
    if |xs| > 0 {
      var init := xs[..|xs| - 1];
      EveryAll(init, p);
      assert xs == init + [xs[|xs| - 1]];
      assert forall k :: 0 <= k < |init| ==> init[k] == xs[k];
    }
  }

  lemma {:induction false} ProcessGood(st: State, lines: seq<string>)
    ensures Process(st, lines).Ok? <==> Every(lines, Clean)
  {
    if |lines| > 0 {
      var init := lines[..|lines| - 1];
      ProcessGood(st, init);
      if Process(st, init).Ok? {
        StepOk(Process(st, init).value, lines[|lines| - 1]);
      }
    }
  }

  /** The read loop raises exactly when some line has more than three tokens. */
  lemma ProcessOk(st: State, lines: seq<string>)
    ensures Process(st, lines).Ok? <==> forall k :: 0 <= k < |lines| ==> !Bad(lines[k])
  {
    ProcessGood(st, lines);
    EveryAll(lines, Clean);
  }

  /** When the read loop raises, it is on the first bad line. */
  lemma {:induction false} ProcessFirstBad(st: State, lines: seq<string>) returns (k: nat)
    requires Process(st, lines).Err?
    ensures k < |lines| && Bad(lines[k]) && forall i :: 0 <= i < k ==> !Bad(lines[i])
  {
    var init := lines[..|lines| - 1];
    assert forall i :: 0 <= i < |init| ==> init[i] == lines[i];
    if Process(st, init).Err? {
      k := ProcessFirstBad(st, init);
    } else {
      ProcessGood(st, init);
      EveryAll(init, Clean);
      StepOk(Process(st, init).value, lines[|lines| - 1]);
      k := |lines| - 1;
    }
  }

  /** The stripped comment lines, in order. */
  function Comments(lines: seq<string>): seq<string>
  {
    if |lines| == 0 then []
    else
      var t := Text.Trim(lines[|lines| - 1]);
      Comments(lines[..|lines| - 1]) + (if Kept(t) then [t] else [])
  }

  /** `start` gains exactly the stripped comment lines, in their order. */
  lemma {:induction false} ProcessStart(st: State, lines: seq<string>)
    requires Process(st, lines).Ok?
    ensures Process(st, lines).value.start == st.start + Comments(lines)
  {
    if |lines| > 0 {
      ProcessStart(st, lines[..|lines| - 1]);
      StepStart(Process(st, lines[..|lines| - 1]).value, lines[|lines| - 1]);
    }
  }

  /** Every token of a recorded line has an id in `id`. */
  ghost predicate Looked(id: Ids, line: string)
  {
    var t := Text.Trim(line);
    Kept(t) || |Tokens(t)| <= 1 || forall k :: 0 <= k < |Tokens(t)| ==> Tokens(t)[k] in id
  }

  /** Under `id`, tokens of an edge line name the edge between a and b with weight x, either way round. */
  ghost predicate JoinsTokens(id: Ids, tokens: seq<string>, a: nat, b: nat, x: Option<nat>)
  {
    && 2 <= |tokens| <= 3
    && (forall k :: 0 <= k < |tokens| ==> tokens[k] in id)
    && ((id[tokens[0]] == a && id[tokens[1]] == b) || (id[tokens[0]] == b && id[tokens[1]] == a))
    && x == (if |tokens| == 3 then Some(id[tokens[2]]) else None)
  }

  /** The line is an edge line naming a and b, with weight x, under `id`. */
  ghost predicate Joins(id: Ids, line: string, a: nat, b: nat, x: Option<nat>)
  {
    var t := Text.Trim(line);
    !Kept(t) && JoinsTokens(id, Tokens(t), a, b, x)
  }

  /** Recording an edge line stores exactly the pairs it names under the new ids. */
  lemma RecordEdges(st: State, tokens: seq<string>, a: nat, b: nat, x: Option<nat>)
    requires Dense(st.id) && Record(st, tokens).Ok?
    ensures var st' := Record(st, tokens).value;
      && (forall k :: 0 <= k < |tokens| && |tokens| > 1 ==> tokens[k] in st'.id)
      && (Has(st'.graph, a, b, x) <==> Has(st.graph, a, b, x) || JoinsTokens(st'.id, tokens, a, b, x))
  {
    if |tokens| > 1 {
      var r := LookAll(st.id, tokens);
      LookAllIds(st.id, tokens);
      var w := if |tokens| == 3 then Some(r.1[2]) else None;
      LinkHas(st.graph, r.1[0], r.1[1], w, a, b, x);
    }
  }

  /** One line stores exactly the pairs it names under the new ids, and looks up all its tokens. */
  lemma StepEdges(st: State, line: string, a: nat, b: nat, x: Option<nat>)
    requires Dense(st.id) && Step(st, line).Ok?
    ensures Looked(Step(st, line).value.id, line)
    ensures Has(Step(st, line).value.graph, a, b, x) <==> Has(st.graph, a, b, x) || Joins(Step(st, line).value.id, line, a, b, x)
  {
    var t := Text.Trim(line);
    if !Kept(t) {
      RecordEdges(st, Tokens(t), a, b, x);
    }
  }

  /** Ids only added leave what a looked-up line names unchanged. */
  lemma JoinsExtends(id: Ids, id': Ids, line: string, a: nat, b: nat, x: Option<nat>)
    requires Extends(id, id') && Looked(id, line)
    ensures Looked(id', line)
    ensures Joins(id, line, a, b, x) <==> Joins(id', line, a, b, x)
  {
  }

  /** Every line's tokens have ids. */
  ghost predicate Known(id: Ids, lines: seq<string>)
  {
    forall k :: 0 <= k < |lines| ==> Looked(id, lines[k])
  }

  /** Some element satisfies p. */
  ghost predicate Any<T>(xs: seq<T>, p: T -> bool)
  {
    exists k :: 0 <= k < |xs| && p(xs[k])
  }

  lemma AnySnoc<T>(xs: seq<T>, p: T -> bool)
    requires |xs| > 0
    ensures Any(xs, p) <==> Any(xs[..|xs| - 1], p) || p(xs[|xs| - 1])
  {
    var init := xs[..|xs| - 1];
    if Any(init, p) {
      var k :| 0 <= k < |init| && p(init[k]);
      assert xs[k] == init[k];
    }
    if Any(xs, p) {
      var k :| 0 <= k < |xs| && p(xs[k]);
      if k < |init| {
        assert xs[k] == init[k];
      }
    }
  }

  /** The lines naming the edge between a and b with weight x. */
  ghost function JoinsOf(id: Ids, a: nat, b: nat, x: Option<nat>): string -> bool
  {
    line => Joins(id, line, a, b, x)
  }

  /** Some line names the edge between a and b with weight x. */
  ghost predicate Named(id: Ids, lines: seq<string>, a: nat, b: nat, x: Option<nat>)
  {
    Any(lines, JoinsOf(id, a, b, x))
  }

  lemma NamedSnoc(id: Ids, lines: seq<string>, a: nat, b: nat, x: Option<nat>)
    requires |lines| > 0
    ensures Named(id, lines, a, b, x) <==>
      (Named(id, lines[..|lines| - 1], a, b, x) || Joins(id, lines[|lines| - 1], a, b, x))
  {
    AnySnoc(lines, JoinsOf(id, a, b, x));
  }

  lemma KnownExtends(id: Ids, id': Ids, lines: seq<string>, a: nat, b: nat, x: Option<nat>)
    requires Extends(id, id') && Known(id, lines)
    ensures Known(id', lines)
    ensures Named(id, lines, a, b, x) <==> Named(id', lines, a, b, x)
  {
    forall k | 0 <= k < |lines|
      ensures Looked(id', lines[k]) && (Joins(id, lines[k], a, b, x) <==> Joins(id', lines[k], a, b, x))
    {
      JoinsExtends(id, id', lines[k], a, b, x);
    }
  }

  lemma KnownSnoc(id: Ids, lines: seq<string>)
    requires |lines| > 0 && Known(id, lines[..|lines| - 1]) && Looked(id, lines[|lines| - 1])
    ensures Known(id, lines)
  {
    assert forall k :: 0 <= k < |lines| - 1 ==> lines[k] == lines[..|lines| - 1][k];
  }

  /**
   * After the read loop, vertex a stores (b, x) exactly when it did before
   * or some edge line names a and b with weight x, in either order, under
   * the final ids: an identical pair is stored once, while the same ends
   * with different weights are all kept.
   */
  lemma {:induction false} ProcessEdges(st: State, lines: seq<string>, a: nat, b: nat, x: Option<nat>)
    requires Inv(st) && Process(st, lines).Ok?
    ensures Known(Process(st, lines).value.id, lines)
    ensures Has(Process(st, lines).value.graph, a, b, x) <==>
      (Has(st.graph, a, b, x) || Named(Process(st, lines).value.id, lines, a, b, x))
  {
    if |lines| > 0 {
      var init := lines[..|lines| - 1];
      var last := lines[|lines| - 1];
      var prev := Process(st, init).value;
      var next := Process(st, lines).value;
      ProcessEdges(st, init, a, b, x);
      ProcessInv(st, init);
      StepEdges(prev, last, a, b, x);
      StepInv(prev, last);
      KnownExtends(prev.id, next.id, init, a, b, x);
      KnownSnoc(next.id, lines);
      NamedSnoc(next.id, lines, a, b, x);
    }
  }

  /** Once a prefix raises, the whole read loop raises with the same error. */
  lemma {:induction false} ProcessErrKept(st: State, lines: seq<string>, j: nat)
    requires j <= |lines| && Process(st, lines[..j]).Err?
    ensures Process(st, lines) == Process(st, lines[..j])
    decreases |lines| - j
  {
    if j == |lines| {
      assert lines[..j] == lines;
    } else {
      assert lines[..j + 1][..j] == lines[..j];
      ProcessErrKept(st, lines, j + 1);
    }
  }

  /** Each row is written once. */
  predicate Unique(rows: seq<Row>)
  {
    forall i, j :: 0 <= i < j < |rows| ==> rows[i] != rows[j]
  }

  /** Rows come in ascending order of their first vertex. */
  predicate Ascending(rows: seq<Row>)
  {
    forall i, j :: 0 <= i < j < |rows| ==> rows[i].0 <= rows[j].0
  }

  /**
   * The rows written: every stored pair (v, w) of a vertex u with u < v,
   * once each, in ascending order of u.
   */
  ghost predicate Listed(graph: Adj, rows: seq<Row>)
  {
    && (forall r :: r in rows <==> Has(graph, r.0, r.1, r.2) && r.0 < r.1)
    && Unique(rows) && Ascending(rows)
  }

  /** The rows of the vertices in `done`. */
  ghost predicate RowsUpTo(graph: Adj, rows: seq<Row>, done: set<nat>)
  {
    && (forall r :: r in rows <==> r.0 in done && Has(graph, r.0, r.1, r.2) && r.0 < r.1)
    && Unique(rows) && Ascending(rows)
  }

  /** The rows of the vertices in `done`, then those of u from the pairs in `seen`. */
  ghost predicate RowsAt(graph: Adj, rows: seq<Row>, done: set<nat>, u: nat, seen: set<(nat, Option<nat>)>)
  {
    && (forall r :: r in rows <==>
      (r.0 in done && Has(graph, r.0, r.1, r.2) && r.0 < r.1) || (r.0 == u && (r.1, r.2) in seen && u < r.1))
    && Unique(rows) && Ascending(rows)
    && (forall r :: r in rows ==> r.0 <= u)
  }

  lemma RowsBegin(graph: Adj, rows: seq<Row>, done: set<nat>, u: nat)
    requires RowsUpTo(graph, rows, done) && u !in done
    requires forall r :: r in rows ==> r.0 < u
    ensures RowsAt(graph, rows, done, u, {})
  {
  }

  lemma RowsNext(graph: Adj, rows: seq<Row>, done: set<nat>, u: nat, seen: set<(nat, Option<nat>)>, p: (nat, Option<nat>))
    requires RowsAt(graph, rows, done, u, seen) && u !in done && p !in seen && u in graph && p in graph[u]
    ensures RowsAt(graph, if u < p.0 then rows + [(u, p.0, p.1)] else rows, done, u, seen + {p})
  {
    if u < p.0 {
      var row := (u, p.0, p.1);
      assert row !in rows;
      var rows' := rows + [row];
      forall r
        ensures r in rows' <==> r in rows || r == row
      {
      }
    }
  }

  lemma RowsEnd(graph: Adj, rows: seq<Row>, done: set<nat>, u: nat)
    requires u in graph && RowsAt(graph, rows, done, u, graph[u])
    ensures RowsUpTo(graph, rows, done + {u})
    ensures forall r :: r in rows ==> r.0 <= u
  {
  }

  /** A finite non-empty set of ids has a least element. */
  lemma MinOf(s: set<nat>) returns (m: nat)
    requires s != {}
    ensures m in s && forall y :: y in s ==> m <= y
    decreases |s|
  {
    var x :| x in s;
    if s == {x} {
      m := x;
    } else {
      var m' := MinOf(s - {x});
      m := if x < m' then x else m';
      assert forall y :: y in s ==> y == x || y in s - {x};
    }
  }

  /** One written line: `u v` or `u v w`. */
  function RowLine(r: Row): string
  {
    Text.NatToString(r.0) + " " + Text.NatToString(r.1) +
    (if r.2.None? then "" else " " + Text.NatToString(r.2.value)) + "\n"
  }

  /** The output file: the kept lines, the number of ids, then the rows. */
  function Output(start: seq<string>, n: nat, rows: seq<Row>): (out: seq<string>)
    ensures |out| == |start| + 1 + |rows|
  {
    seq(|start|, i requires 0 <= i < |start| => start[i] + "\n") +
    [Text.NatToString(n) + "\n"] +
    seq(|rows|, i requires 0 <= i < |rows| => RowLine(rows[i]))
  }

  /** The script's three globals, updated line by line. */
  class Fixer {
    var id: Ids
    var graph: Adj
    var start: seq<string>

    constructor()
      ensures id == map[] && graph == map[] && start == []
    {
      id := map[];
      graph := map[];
      start := [];
    }

    /** The globals as a value. */
    function Snapshot(): State
      reads this
    {
      State(id, graph, start)
    }

    /** `lookup(u)`. */
    method Lookup(u: string) returns (r: nat)
      modifies this
      ensures (id, r) == Look(old(id), u)
      ensures graph == old(graph) && start == old(start)
    {
      if u in id {
        return id[u];
      }
      id := id[u := |id|];
      return id[u];
    }

    /** The body of the read loop for one line; `err` is the exception's ids when it raises. */
    method ReadLine(line: string) returns (err: Option<seq<nat>>)
      modifies this
      ensures err.None? <==> Step(old(Snapshot()), line).Ok?
      ensures err.None? ==> Snapshot() == Step(old(Snapshot()), line).value
      ensures err.Some? ==> err.value == Step(old(Snapshot()), line).error
    {
      var t := Text.Trim(line);
      if Kept(t) {
        start := start + [t];
        return None;
      }
      err := RecordTokens(Tokens(t));
    }

    /** The tokens of a line that is not a comment: looked up and stored as an edge. */
    method RecordTokens(tokens: seq<string>) returns (err: Option<seq<nat>>)
      modifies this
      ensures err.None? <==> Record(old(Snapshot()), tokens).Ok?
      ensures err.None? ==> Snapshot() == Record(old(Snapshot()), tokens).value
      ensures err.Some? ==> err.value == Record(old(Snapshot()), tokens).error
    {
      if |tokens| <= 1 {
        return None;
      }
      var xs := [];
      for i := 0 to |tokens|
        invariant (id, xs) == LookAll(old(id), tokens[..i])
        invariant graph == old(graph) && start == old(start)
      {
        var x := Lookup(tokens[i]);
        assert tokens[..i + 1][..i] == tokens[..i];
        xs := xs + [x];
      }
      assert tokens[..|tokens|] == tokens;
      if |xs| == 2 {
        graph := Link(graph, xs[0], xs[1], None);
      } else if |xs| == 3 {
        graph := Link(graph, xs[0], xs[1], Some(xs[2]));
      } else {
        return Some(xs);
      }
      return None;
    }

    /** The read loop over the file's lines; `err` is the exception's ids when a line raises. */
    method Read(lines: seq<string>) returns (err: Option<seq<nat>>)
      modifies this
      ensures err.None? <==> Process(old(Snapshot()), lines).Ok?
      ensures err.None? ==> Snapshot() == Process(old(Snapshot()), lines).value
      ensures err.Some? ==> err.value == Process(old(Snapshot()), lines).error
    {
      ghost var st0 := Snapshot();
      for i := 0 to |lines|
        invariant Process(st0, lines[..i]) == Ok(Snapshot())
      {
        assert lines[..i + 1][..i] == lines[..i];
        err := ReadLine(lines[i]);
        if err.Some? {
          ProcessErrKept(st0, lines, i + 1);
          return;
        }
      }
      assert lines[..|lines|] == lines;
      return None;
    }

    /**
     * The write: every vertex in ascending order, and for each the pairs
     * (v, w) of its set with v > u; `rows` are the edges in the order
     * written.  The order within one vertex's set is Python's set order,
     * which the model leaves open.
     */
    method Write() returns (out: seq<string>, rows: seq<Row>)
      ensures Listed(graph, rows)
      ensures out == Output(start, |id|, rows)
    {
      rows := Rows();
      var kept := start;
      out := seq(|kept|, i requires 0 <= i < |kept| => kept[i] + "\n") + [Text.NatToString(|id|) + "\n"];
      out := out + seq(|rows|, i requires 0 <= i < |rows| => RowLine(rows[i]));
    }

    /** The nested write loops, collecting the rows in the order written. */
    method Rows() returns (rows: seq<Row>)
      ensures Listed(graph, rows)
    {
      rows := [];
      var remaining := graph.Keys;
      while remaining != {}
        invariant remaining <= graph.Keys
        invariant RowsUpTo(graph, rows, graph.Keys - remaining)
        invariant forall r, y :: r in rows && y in remaining ==> r.0 < y
        decreases |remaining|
      {
        ghost var m := MinOf(remaining);
        var u :| u in remaining && forall y :: y in remaining ==> u <= y;
        ghost var done := graph.Keys - remaining;
        RowsBegin(graph, rows, done, u);
        rows := RowsFrom(rows, done, u);
        assert done + {u} == graph.Keys - (remaining - {u});
        remaining := remaining - {u};
      }
      assert graph.Keys - remaining == graph.Keys;
    }

    /** The inner write loop: the pairs (v, w) of u's set with u < v. */
    method RowsFrom(rows0: seq<Row>, ghost done: set<nat>, u: nat) returns (rows: seq<Row>)
      requires u in graph && u !in done && RowsAt(graph, rows0, done, u, {})
      ensures RowsUpTo(graph, rows, done + {u})
      ensures forall r :: r in rows ==> r.0 <= u
    {
      rows := rows0;
      var rest := graph[u];
      while rest != {}
        invariant rest <= graph[u]
        invariant RowsAt(graph, rows, done, u, graph[u] - rest)
        decreases |rest|
      {
        var p :| p in rest;
        RowsNext(graph, rows, done, u, graph[u] - rest, p);
        if u < p.0 {
          rows := rows + [(u, p.0, p.1)];
        }
        assert graph[u] - (rest - {p}) == (graph[u] - rest) + {p};
        rest := rest - {p};
      }
      RowsEnd(graph, rows, done, u);
    }
  }

  /**
   * The whole script on the file's lines: the lines written back, or the
   * exception's ids when a line has more than three tokens (nothing is
   * written then).  The output is the comment lines, the number of ids
   * and the rows of the final adjacency.
   */
  method Fix(lines: seq<string>) returns (r: Result<seq<string>, seq<nat>>)
    ensures r.Ok? <==> Process(Initial(), lines).Ok?
    ensures r.Ok? <==> forall k :: 0 <= k < |lines| ==> !Bad(lines[k])
    ensures r.Err? ==> r.error == Process(Initial(), lines).error
    ensures r.Ok? ==> exists rows ::
      (Listed(Process(Initial(), lines).value.graph, rows) &&
       r.value == Output(Comments(lines), |Process(Initial(), lines).value.id|, rows))
  {
    var fixer := new Fixer();
    assert fixer.Snapshot() == Initial();
    var err := fixer.Read(lines);
    ProcessOk(Initial(), lines);
    if err.Some? {
      return Err(err.value);
    }
    ghost var st := Process(Initial(), lines).value;
    assert fixer.start == Comments(lines) by {
      ProcessStart(Initial(), lines);
      assert [] + Comments(lines) == Comments(lines);
    }
    var out, rows := fixer.Write();
    assert Listed(st.graph, rows) && out == Output(Comments(lines), |st.id|, rows);
    return Ok(out);
  }

  /**
   * The rows written are exactly the edges named by some line, once each,
   * with the smaller id first: a self-loop is never written, and an edge
   * given in both directions is written once.
   */
  lemma FixedEdges(lines: seq<string>, rows: seq<Row>, a: nat, b: nat, x: Option<nat>)
    requires Process(Initial(), lines).Ok?
    requires Listed(Process(Initial(), lines).value.graph, rows)
    ensures (a, b, x) in rows <==> a < b && Named(Process(Initial(), lines).value.id, lines, a, b, x)
  {
    InitialInv();
    ProcessEdges(Initial(), lines, a, b, x);
  }

  /**
   * The ids are 0 .. n - 1 for the n written in the header, every token of
   * every edge line has one, and every vertex and weight written is one of
   * them.
   */
  lemma FixedIds(lines: seq<string>, rows: seq<Row>)
    requires Process(Initial(), lines).Ok?
    requires Listed(Process(Initial(), lines).value.graph, rows)
    ensures var st := Process(Initial(), lines).value;
      && Dense(st.id) && Known(st.id, lines)
      && forall r :: r in rows ==> r.0 < |st.id| && r.1 < |st.id| && (r.2.Some? ==> r.2.value < |st.id|)
  {
    InitialInv();
    ProcessInv(Initial(), lines);
    ProcessEdges(Initial(), lines, 0, 0, None);
  }
}
