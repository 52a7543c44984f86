/**
 * `visualize_diversion` (data/visualize_diversion.py): the three input
 * files of a network-diversion instance read back, and the three drawings
 * prepared from them.  The `.in` file holds a vertex count n, n position
 * lines and then the edge lines; `.diverted` holds the edges of the
 * diversion set, one pair per line; `.diversion` holds s, t and the
 * diversion edge d1 d2.  Every file is given as its lines (or, for
 * `.diversion`, its whole text); drawing is left to networkx.
 */
module VisualizeDiversion {
  import opened Wrappers
  import Text
  import Nx

  /** A value `read` returns: a Python int when the float read is integral, the float otherwise. */
  datatype Num = Int(i: int) | Float(x: real)

  /** The exceptions the script can raise while reading. */
  datatype PyError = ValueError | IndexError | TypeError

  function Pow10(n: nat): (r: nat)
    ensures r > 0
  {
    if n == 0 then 1 else 10 * Pow10(n - 1)
  }

  /**
   * Python's `float(s)` on a decimal numeral: surrounding whitespace is
   * ignored, then an optional sign, digits, and at most one decimal point
   * with digits on at least one side of it.
   */
  function ParseFloat(s: string): Option<real>
  {
    var t := Text.Trim(s);
    var neg := Text.StartsWith(t, '-');
    var body := if neg || Text.StartsWith(t, '+') then t[1..] else t;
    match Unsigned(body)
    case None => None
    case Some(v) => Some(if neg then -v else v)
  }

  /** The unsigned part of a decimal numeral: digits with at most one decimal point. */
  function Unsigned(body: string): Option<real>
  {
    Decimal(Text.Split(body, '.'))
  }

  /** The pieces of an unsigned numeral around its decimal point, read as a value. */
  function Decimal(parts: seq<string>): Option<real>
    requires |parts| >= 1
  {
    if |parts| > 2 then None
    else
      var whole := parts[0];
      var frac := if |parts| == 2 then parts[1] else "";
      if |whole| + |frac| == 0 || !Text.AllDigits(whole) || !Text.AllDigits(frac) then None
      else Some(Text.DigitsValue(whole) as real + Fraction(frac))
  }

  /** The value of the digits after a decimal point. */
  function Fraction(frac: string): real
    requires Text.AllDigits(frac)
  {
    Text.DigitsValue(frac) as real / Pow10(|frac|) as real
  }

  /** A Num `read` can produce: a float is never integral. */
  predicate Normal(n: Num)
  {
    n.Float? ==> n.x.Floor as real != n.x
  }

  /** `read(x)`: the float, turned into an int when it is integral. */
  function Read(word: string): (r: Option<Num>)
    ensures r.Some? ==> Normal(r.value)
  {
    match ParseFloat(word)
    case None => None
    case Some(a) => if a.Floor as real == a then Some(Int(a.Floor)) else Some(Float(a))
  }

  /** The number a Num stands for. */
  function Value(n: Num): real
  {
    if n.Int? then n.i as real else n.x
  }

  /**
   * On the values `read` produces, equality of Nums is Python's numeric
   * equality, so set and list membership behave as in the script.
   */
  lemma NumEquality(a: Num, b: Num)
    requires Normal(a) && Normal(b)
    ensures a == b <==> Value(a) == Value(b)
  {
  }

  /** Digits without a decimal point are read as their value. */
  lemma UnsignedWhole(body: string)
    requires |body| > 0 && Text.AllDigits(body) && Text.Split(body, '.') == [body]
    ensures Unsigned(body) == Some(Text.DigitsValue(body) as real)
  {
    DecimalWhole(body);
  }

  lemma DecimalWhole(whole: string)
    requires |whole| > 0 && Text.AllDigits(whole)
    ensures Decimal([whole]) == Some(Text.DigitsValue(whole) as real)
  {
    assert Fraction("") == 0.0 by {
      assert Text.DigitsValue("") == 0 && Pow10(0) == 1;
    }
    assert Text.AllDigits("");
  }

  /** A run of digits holds no decimal point. */
  lemma DigitsUnsplit(d: string)
    requires Text.AllDigits(d)
    ensures Text.Split(d, '.') == [d]
  {
    assert '.' !in d;
    Text.SplitNoSep(d, '.');
  }

  /** A numeral without a decimal point is read as its integer value. */
  lemma ParseFloatInteger(s: string, neg: bool, d: string)
    requires |d| > 0 && Text.AllDigits(d)
    requires s == (if neg then "-" else "") + d
    ensures ParseFloat(s) == Some(if neg then -(Text.DigitsValue(d) as real) else Text.DigitsValue(d) as real)
  {
    assert Text.IsDigit(d[0]) && Text.IsDigit(d[|d| - 1]);
    assert !Text.IsSpace(s[0]);
    assert s[|s| - 1] == d[|d| - 1];
    Text.TrimUnchanged(s);
    assert Text.StartsWith(s, '-') == neg;
    assert !neg ==> !Text.StartsWith(s, '+');
    assert (if neg then s[1..] else s) == d;
    DigitsUnsplit(d);
    UnsignedWhole(d);
  }

  /** An integer written by `str` is read back as that int. */
  lemma ReadIntToString(i: int)
    ensures Read(Text.IntToString(i)) == Some(Int(i))
  {
    var d := Text.NatToString(if i < 0 then -i else i);
    ParseFloatInteger(Text.IntToString(i), i < 0, d);
    assert ParseFloat(Text.IntToString(i)) == Some(i as real);
  }

  /** The words of one line, each read with `read`. */
  function RowOf(line: string): Option<seq<Num>>
  {
    Text.ParseEach(Text.SplitWs(line), Read)
  }

  /** Python's normalisation of a slice bound against a length: negative bounds count from the end. */
  function SliceBound(b: int, len: nat): (r: nat)
    ensures r <= len
  {
    if b < 0 then (if b + len < 0 then 0 else b + len)
    else if b > len then len
    else b
  }

  /** Python's `s[lo:hi]`. */
  function Slice<T>(s: seq<T>, lo: int, hi: int): seq<T>
  {
    var a := SliceBound(lo, |s|);
    var b := SliceBound(hi, |s|);
    if a <= b then s[a..b] else []
  }

  /** Bounds inside the sequence select as Dafny's slice does; a bound past the end stops at the end. */
  lemma SliceWithin<T>(s: seq<T>, lo: int, hi: int)
    requires 0 <= lo <= |s| && lo <= hi
    ensures Slice(s, lo, hi) == s[lo..if hi <= |s| then hi else |s|]
  {
  }

  /**
   * With a count n that fits the file, `lines[1:n+1]` is the n lines
   * after the first and `lines[n+1:]` everything after them.
   */
  lemma InLayout<T>(rows: seq<T>, n: int)
    requires 0 <= n && n + 1 <= |rows|
    ensures |Slice(rows, 1, n + 1)| == n
    ensures [rows[0]] + Slice(rows, 1, n + 1) + Slice(rows, n + 1, |rows|) == rows
  {
    SliceWithin(rows, 1, n + 1);
    SliceWithin(rows, n + 1, |rows|);
    assert [rows[0]] + rows[1..n + 1] + rows[n + 1..] == rows;
  }

  /** Every position line unpacks into an id and two coordinates. */
  predicate Triples(ps: seq<seq<Num>>)
  {
    forall k :: 0 <= k < |ps| ==> |ps[k]| == 3
  }

  /** The positions the `pos` loop records: the last line naming a vertex wins. */
  function Positions(ps: seq<seq<Num>>): map<Num, (Num, Num)>
    requires Triples(ps)
  {
    if |ps| == 0 then map[]
    else
      var last := ps[|ps| - 1];
      Positions(ps[..|ps| - 1])[last[0] := (last[1], last[2])]
  }

  /** A vertex has a position exactly when some position line names it. */
  lemma {:induction false} PositionsKeys(ps: seq<seq<Num>>, key: Num)
    requires Triples(ps)
    ensures key in Positions(ps) <==> exists k :: 0 <= k < |ps| && ps[k][0] == key
  {
    if |ps| > 0 {
      var init := ps[..|ps| - 1];
      PositionsKeys(init, key);
      if exists k :: 0 <= k < |init| && init[k][0] == key {
        var k :| 0 <= k < |init| && init[k][0] == key;
        assert ps[k] == init[k];
      }
      if exists k :: 0 <= k < |ps| && ps[k][0] == key {
        var k :| 0 <= k < |ps| && ps[k][0] == key;
        if k < |init| {
          assert init[k] == ps[k];
        }
      }
    }
  }

  /** The position of a vertex is the one on the last line that names it. */
  lemma {:induction false} PositionsLast(ps: seq<seq<Num>>, k: nat)
    requires Triples(ps) && k < |ps|
    requires forall j :: k < j < |ps| ==> ps[j][0] != ps[k][0]
    ensures ps[k][0] in Positions(ps) && Positions(ps)[ps[k][0]] == (ps[k][1], ps[k][2])
  {
    var init := ps[..|ps| - 1];
    if k < |init| {
      assert init[k] == ps[k];
      assert forall j :: k < j < |init| ==> init[j] == ps[j];
      PositionsLast(init, k);
    }
  }

  /** What the `.in` file gives: the positions and the edge lines. */
  datatype InFile = InFile(pos: map<Num, (Num, Num)>, edges: seq<seq<Num>>)

  /** The first i position lines have three values each and are recorded in `pos`. */
  ghost predicate Placed(pos: map<Num, (Num, Num)>, ps: seq<seq<Num>>, i: nat)
  {
    i <= |ps| && Triples(ps[..i]) && pos == Positions(ps[..i])
  }

  lemma PlacedStep(pos: map<Num, (Num, Num)>, ps: seq<seq<Num>>, i: nat)
    requires Placed(pos, ps, i) && i < |ps| && |ps[i]| == 3
    ensures Placed(pos[ps[i][0] := (ps[i][1], ps[i][2])], ps, i + 1)
  {
    assert ps[..i + 1][..i] == ps[..i];
  }

  /** The count on the first line: a missing line or word, or a float, raises. */
  function Count(rows: seq<seq<Num>>): Result<int, PyError>
  {
    if |rows| == 0 || |rows[0]| == 0 then Err(IndexError)
    else if rows[0][0].Float? then Err(TypeError)
    else Ok(rows[0][0].i)
  }

  /**
   * Reading `.in`: every word of every line is read first (a word that is
   * not a number raises ValueError); n is the first value; each of
   * `lines[1:n+1]` must unpack into an id and two coordinates; the edge
   * lines are `lines[n+1:]`.
   */
  method ReadIn(lines: seq<string>) returns (r: Result<InFile, PyError>)
    ensures Text.ParseEach(lines, RowOf).None? ==> r == Err(ValueError)
    ensures r.Ok? <==> InRead(lines)
    ensures r.Ok? ==> r.value.pos == InPositions(lines) && r.value.edges == InEdges(lines)
    ensures r.Err? && Text.ParseEach(lines, RowOf).Some? && Count(Text.ParseEach(lines, RowOf).value).Err? ==>
      r.error == Count(Text.ParseEach(lines, RowOf).value).error
  {
    var parsed := Text.ParseEach(lines, RowOf);
    if parsed.None? {
      return Err(ValueError);
    }
    var rows := parsed.value;
    var count := Count(rows);
    if count.Err? {
      return Err(count.error);
    }
    var n := count.value;
    var ps := Slice(rows, 1, n + 1);
    var pos := map[];
    for i := 0 to |ps|
      invariant Placed(pos, ps, i)
    {
      var row := ps[i];
      if |row| != 3 {
        return Err(ValueError);
      }
      PlacedStep(pos, ps, i);
      pos := pos[row[0] := (row[1], row[2])];
    }
    assert ps[..|ps|] == ps;
    return Ok(InFile(pos, Slice(rows, n + 1, |rows|)));
  }

  /** Both orientations of every pair are in the set. */
  predicate Symmetric(set_: set<(Num, Num)>)
  {
    forall p :: p in set_ ==> (p.1, p.0) in set_
  }

  /** The pair some line gives, in one orientation or the other. */
  ghost predicate Listed(pairs: seq<seq<Num>>, p: (Num, Num))
    requires forall k :: 0 <= k < |pairs| ==> |pairs[k]| == 2
  {
    exists k :: 0 <= k < |pairs| && (p == (pairs[k][0], pairs[k][1]) || p == (pairs[k][1], pairs[k][0]))
  }

  /** The rows of the `.diverted` lines, each read with `read`. */
  function RowsOf(lines: seq<string>): (r: seq<Option<seq<Num>>>)
    ensures |r| == |lines|
  {
    seq(|lines|, k requires 0 <= k < |lines| => RowOf(lines[k]))
  }

  /** Every line is a pair of numbers. */
  predicate AllPairs(rows: seq<Option<seq<Num>>>)
  {
    forall k :: 0 <= k < |rows| ==> rows[k].Some? && |rows[k].value| == 2
  }

  function PairsOf(rows: seq<Option<seq<Num>>>): (r: seq<seq<Num>>)
    requires AllPairs(rows)
    ensures |r| == |rows| && forall k :: 0 <= k < |r| ==> |r[k]| == 2
  {
    seq(|rows|, k requires 0 <= k < |rows| => rows[k].value)
  }

  /** Both orientations of every pair, as the `.diverted` loop adds them. */
  function PairSet(ps: seq<seq<Num>>): set<(Num, Num)>
    requires forall k :: 0 <= k < |ps| ==> |ps[k]| == 2
  {
    if |ps| == 0 then {}
    else
      var last := ps[|ps| - 1];
      PairSet(ps[..|ps| - 1]) + {(last[0], last[1]), (last[1], last[0])}
  }

  /** The diversion set holds exactly the listed pairs, in both orientations, so it is symmetric. */
  lemma {:induction false} PairSetListed(ps: seq<seq<Num>>, p: (Num, Num))
    requires forall k :: 0 <= k < |ps| ==> |ps[k]| == 2
    ensures p in PairSet(ps) <==> Listed(ps, p)
    ensures p in PairSet(ps) ==> (p.1, p.0) in PairSet(ps)
  {
    if |ps| > 0 {
      var init := ps[..|ps| - 1];
      PairSetListed(init, p);
      if Listed(init, p) {
        var k :| 0 <= k < |init| && (p == (init[k][0], init[k][1]) || p == (init[k][1], init[k][0]));
        assert ps[k] == init[k];
      }
      if Listed(ps, p) {
        var k :| 0 <= k < |ps| && (p == (ps[k][0], ps[k][1]) || p == (ps[k][1], ps[k][0]));
        if k < |init| {
          assert init[k] == ps[k];
        }
      }
      PairSetListed(init, (p.1, p.0));
    }
  }

  lemma PairSetSymmetric(ps: seq<seq<Num>>)
    requires forall k :: 0 <= k < |ps| ==> |ps[k]| == 2
    ensures Symmetric(PairSet(ps))
  {
    forall p | p in PairSet(ps)
      ensures (p.1, p.0) in PairSet(ps)
    {
      PairSetListed(ps, p);
    }
  }

  /** The first i lines are pairs, and `set_` holds them in both orientations. */
  ghost predicate Diverted(set_: set<(Num, Num)>, rows: seq<Option<seq<Num>>>, i: nat)
  {
    i <= |rows| && AllPairs(rows[..i]) && set_ == PairSet(PairsOf(rows[..i]))
  }

  lemma DivertedStep(set_: set<(Num, Num)>, rows: seq<Option<seq<Num>>>, i: nat)
    requires Diverted(set_, rows, i) && i < |rows| && rows[i].Some? && |rows[i].value| == 2
    ensures Diverted(set_ + {(rows[i].value[0], rows[i].value[1]), (rows[i].value[1], rows[i].value[0])}, rows, i + 1)
  {
    assert rows[..i + 1][..i] == rows[..i];
    assert PairsOf(rows[..i + 1])[..i] == PairsOf(rows[..i]);
  }

  /**
   * Reading `.diverted`: every line must unpack into exactly two values,
   * and both orientations of each pair join the diversion set.
   */
  method DiversionSet(lines: seq<string>) returns (r: Result<set<(Num, Num)>, PyError>)
    ensures r.Ok? <==> AllPairs(RowsOf(lines))
    ensures r.Err? ==> r.error == ValueError
    ensures r.Ok? ==> r.value == PairSet(PairsOf(RowsOf(lines)))
  {
    ghost var rows := RowsOf(lines);
    var set_ := {};
    for i := 0 to |lines|
      invariant Diverted(set_, rows, i)
    {
      var row := RowOf(lines[i]);
      assert rows[i] == row;
      if row.None? || |row.value| != 2 {
        return Err(ValueError);
      }
      var u, v := row.value[0], row.value[1];
      DivertedStep(set_, rows, i);
      set_ := set_ + {(u, v), (v, u)};
    }
    assert rows[..|lines|] == rows;
    return Ok(set_);
  }

  /**
   * Reading `.diversion`: every word must be an integer and there must be
   * at least four of them; s, t, d1 and d2 are the first four and the rest
   * is ignored.  Any failure is a ValueError.
   */
  function ParseDiversion(text: string): (r: Result<(int, int, int, int), PyError>)
    ensures r.Err? ==> r.error == ValueError
    ensures var ws := Text.SplitWs(text);
      r.Ok? <==> |ws| >= 4 && forall i :: 0 <= i < |ws| ==> Text.ParseInt(ws[i]).Some?
    ensures var ws := Text.SplitWs(text);
      r.Ok? ==> r.value == (Text.ParseInt(ws[0]).value, Text.ParseInt(ws[1]).value,
                            Text.ParseInt(ws[2]).value, Text.ParseInt(ws[3]).value)
  {
    Text.ParseEachSome(Text.SplitWs(text), Text.ParseInt);
    match Text.ParseEach(Text.SplitWs(text), Text.ParseInt)
    case None => Err(ValueError)
    case Some(xs) => if |xs| < 4 then Err(ValueError) else Ok((xs[0], xs[1], xs[2], xs[3]))
  }

  /** The words of a `.diversion` file written as decimal integers. */
  function IntWords(xs: seq<int>): (r: seq<string>)
    ensures |r| == |xs|
  {
    seq(|xs|, k requires 0 <= k < |xs| => Text.IntToString(xs[k]))
  }

  lemma IntWordsParse(xs: seq<int>)
    ensures forall k :: 0 <= k < |xs| ==> |IntWords(xs)[k]| > 0 && Text.NoSpace(IntWords(xs)[k])
    ensures Text.ParseEach(IntWords(xs), Text.ParseInt) == Some(xs)
  {
    forall k | 0 <= k < |xs|
      ensures |IntWords(xs)[k]| > 0 && Text.NoSpace(IntWords(xs)[k]) && Text.ParseInt(IntWords(xs)[k]) == Some(xs[k])
    {
      Text.IntToStringWord(xs[k]);
      Text.ParseIntToString(xs[k]);
    }
    Text.ParseEachAll(IntWords(xs), Text.ParseInt, xs);
  }

  /** Text whose words parse as at least four integers yields the first four. */
  lemma ParseDiversionOf(text: string, xs: seq<int>)
    requires Text.ParseEach(Text.SplitWs(text), Text.ParseInt) == Some(xs) && |xs| >= 4
    ensures ParseDiversion(text) == Ok((xs[0], xs[1], xs[2], xs[3]))
  {
  }

  /** Integers written out separated by spaces parse back as the same integers. */
  lemma IntLineParse(xs: seq<int>)
    ensures Text.ParseEach(Text.SplitWs(Text.Join(IntWords(xs), ' ')), Text.ParseInt) == Some(xs)
  {
    IntWordsParse(xs);
    Text.SplitWsJoin(IntWords(xs));
  }

  /** A `.diversion` file of s, t, d1, d2 and any further integers reads back as s, t, d1, d2. */
  lemma DiversionFileRead(s: int, t: int, d1: int, d2: int, extra: seq<int>)
    ensures ParseDiversion(Text.Join(IntWords([s, t, d1, d2] + extra), ' ')) == Ok((s, t, d1, d2))
  {
    var xs := [s, t, d1, d2] + extra;
    IntLineParse(xs);
    ParseDiversionOf(Text.Join(IntWords(xs), ' '), xs);
  }

  /** The two orientations of the diversion edge (`cut`). */
  predicate InCut(e: (Num, Num), d1: int, d2: int)
  {
    e == (Int(d1), Int(d2)) || e == (Int(d2), Int(d1))
  }

  /** Every edge line has at least two values. */
  predicate Ended(edges: seq<seq<Num>>)
  {
    forall k :: 0 <= k < |edges| ==> |edges[k]| >= 2
  }

  /** The edges of the full graph: every edge line's first two values. */
  function Ends(edges: seq<seq<Num>>): (r: seq<Nx.Added<Num>>)
    requires Ended(edges)
    ensures |r| == |edges|
  {
    seq(|edges|, k requires 0 <= k < |edges| => (edges[k][0], edges[k][1], None))
  }

  /** The edges of the diverted graph: those whose pair, as written, is not in the diversion set. */
  function Kept(edges: seq<seq<Num>>, set_: set<(Num, Num)>): (r: seq<Nx.Added<Num>>)
    requires Ended(edges)
  {
    if |edges| == 0 then []
    else
      var last := edges[|edges| - 1];
      Kept(edges[..|edges| - 1], set_) + (if (last[0], last[1]) !in set_ then [(last[0], last[1], None)] else [])
  }

  lemma EndsSnoc(edges: seq<seq<Num>>, i: nat)
    requires i < |edges| && Ended(edges[..i + 1])
    ensures Ended(edges[..i])
    ensures Ends(edges[..i + 1]) == Ends(edges[..i]) + [(edges[i][0], edges[i][1], None)]
  {
    assert forall k :: 0 <= k < i ==> edges[..i][k] == edges[..i + 1][k];
  }

  lemma KeptSnoc(edges: seq<seq<Num>>, set_: set<(Num, Num)>, i: nat)
    requires i < |edges| && Ended(edges[..i + 1])
    ensures Ended(edges[..i])
    ensures Kept(edges[..i + 1], set_) == Kept(edges[..i], set_) +
      (if (edges[i][0], edges[i][1]) !in set_ then [(edges[i][0], edges[i][1], None)] else [])
  {
    assert edges[..i + 1][..i] == edges[..i];
  }

  /** One more line with two values keeps the prefix Ended. */
  lemma EndedStep(edges: seq<seq<Num>>, i: nat)
    requires i < |edges| && Ended(edges[..i]) && |edges[i]| >= 2
    ensures Ended(edges[..i + 1])
  {
    assert forall k :: 0 <= k < i ==> edges[..i + 1][k] == edges[..i][k];
  }

  /** The full graph of i + 1 lines is that of i lines plus the next line's edge. */
  lemma FullStep(edges: seq<seq<Num>>, i: nat)
    requires i < |edges| && Ended(edges[..i + 1])
    ensures Ended(edges[..i])
    ensures Nx.AddEdges(Nx.Empty(), Ends(edges[..i + 1])) ==
      Nx.AddEdge(Nx.AddEdges(Nx.Empty(), Ends(edges[..i])), edges[i][0], edges[i][1], None)
  {
    EndsSnoc(edges, i);
    Nx.AddEdgesSnoc(Nx.Empty(), Ends(edges[..i]), (edges[i][0], edges[i][1], None));
  }

  /** A line whose pair is not in the diversion set adds its edge to the diverted graph. */
  lemma KeptStep(edges: seq<seq<Num>>, set_: set<(Num, Num)>, i: nat)
    requires i < |edges| && Ended(edges[..i + 1]) && (edges[i][0], edges[i][1]) !in set_
    ensures Ended(edges[..i])
    ensures Nx.AddEdges(Nx.Empty(), Kept(edges[..i + 1], set_)) ==
      Nx.AddEdge(Nx.AddEdges(Nx.Empty(), Kept(edges[..i], set_)), edges[i][0], edges[i][1], None)
  {
    KeptSnoc(edges, set_, i);
    Nx.AddEdgesSnoc(Nx.Empty(), Kept(edges[..i], set_), (edges[i][0], edges[i][1], None));
  }

  /** A line whose pair is in the diversion set leaves the diverted graph as it is. */
  lemma DroppedStep(edges: seq<seq<Num>>, set_: set<(Num, Num)>, i: nat)
    requires i < |edges| && Ended(edges[..i + 1]) && (edges[i][0], edges[i][1]) in set_
    ensures Ended(edges[..i])
    ensures Kept(edges[..i + 1], set_) == Kept(edges[..i], set_)
  {
    KeptSnoc(edges, set_, i);
  }

  /**
   * The graph loop: each edge line's first two values are an edge of the
   * full graph, and of the diverted graph unless the pair is in the
   * diversion set; a line with fewer than two values raises IndexError.
   */
  method BuildGraphs(edges: seq<seq<Num>>, set_: set<(Num, Num)>) returns (r: Result<(Nx.Graph<Num>, Nx.Graph<Num>), PyError>)
    ensures r.Ok? <==> Ended(edges)
    ensures r.Err? ==> r.error == IndexError
    ensures r.Ok? ==> r.value.0 == Nx.AddEdges(Nx.Empty(), Ends(edges)) && r.value.1 == Nx.AddEdges(Nx.Empty(), Kept(edges, set_))
  {
    var full := Nx.Empty();
    var diverted := Nx.Empty();
    for i := 0 to |edges|
      invariant Ended(edges[..i])
      invariant full == Nx.AddEdges(Nx.Empty(), Ends(edges[..i]))
      invariant diverted == Nx.AddEdges(Nx.Empty(), Kept(edges[..i], set_))
    {
      var edge := edges[i];
      if |edge| < 2 {
        assert !Ended(edges) by { assert |edges[i]| < 2; }
        return Err(IndexError);
      }
      var u := edge[0];
      var v := edge[1];
      EndedStep(edges, i);
      FullStep(edges, i);
      full := Nx.AddEdge(full, u, v, None);
      if (u, v) !in set_ {
        KeptStep(edges, set_, i);
        diverted := Nx.AddEdge(diverted, u, v, None);
      } else {
        DroppedStep(edges, set_, i);
      }
    }
    assert edges[..|edges|] == edges;
    return Ok((full, diverted));
  }

  /** Some edge line joins x and y, in either direction. */
  ghost predicate Joined(edges: seq<seq<Num>>, x: Num, y: Num)
    requires Ended(edges)
  {
    exists k :: 0 <= k < |edges| && ((edges[k][0] == x && edges[k][1] == y) || (edges[k][0] == y && edges[k][1] == x))
  }

  lemma EndsAdds(edges: seq<seq<Num>>, x: Num, y: Num)
    requires Ended(edges)
    ensures Nx.Adds(Ends(edges), x, y) <==> Joined(edges, x, y)
  {
    var es := Ends(edges);
    if Nx.Adds(es, x, y) {
      var k :| 0 <= k < |es| && ((es[k].0 == x && es[k].1 == y) || (es[k].0 == y && es[k].1 == x));
      assert es[k].0 == edges[k][0] && es[k].1 == edges[k][1];
    }
    if Joined(edges, x, y) {
      var k :| 0 <= k < |edges| && ((edges[k][0] == x && edges[k][1] == y) || (edges[k][0] == y && edges[k][1] == x));
      assert es[k].0 == edges[k][0] && es[k].1 == edges[k][1];
    }
  }

  /** With a symmetric diversion set, a kept edge joins x and y exactly when some line does and the pair is not in the set. */
  lemma JoinedSnoc(edges: seq<seq<Num>>, x: Num, y: Num)
    requires Ended(edges) && |edges| > 0
    ensures Ended(edges[..|edges| - 1])
    ensures var last := edges[|edges| - 1];
      Joined(edges, x, y) <==>
        (Joined(edges[..|edges| - 1], x, y) || (last[0] == x && last[1] == y) || (last[0] == y && last[1] == x))
  {
    var init := edges[..|edges| - 1];
    assert forall k :: 0 <= k < |init| ==> init[k] == edges[k];
    if Joined(edges, x, y) {
      var k :| 0 <= k < |edges| && ((edges[k][0] == x && edges[k][1] == y) || (edges[k][0] == y && edges[k][1] == x));
      if k < |init| {
        assert init[k] == edges[k];
      }
    }
  }

  lemma {:induction false} KeptAdds(edges: seq<seq<Num>>, set_: set<(Num, Num)>, x: Num, y: Num)
    requires Ended(edges) && Symmetric(set_)
    ensures Nx.Adds(Kept(edges, set_), x, y) <==> Joined(edges, x, y) && (x, y) !in set_
  {
    if |edges| > 0 {
      var init := edges[..|edges| - 1];
      var last := edges[|edges| - 1];
      JoinedSnoc(edges, x, y);
      KeptAdds(init, set_, x, y);
      var e: Nx.Added<Num> := (last[0], last[1], None);
      if (last[0], last[1]) !in set_ {
        assert Kept(edges, set_) == Kept(init, set_) + [e];
        Nx.AddsSnoc(Kept(init, set_), e, x, y);
        assert (last[1], last[0]) !in set_;
      } else {
        assert Kept(edges, set_) == Kept(init, set_);
        assert (last[1], last[0]) in set_;
      }
    }
  }

  /**
   * The diverted graph holds exactly the edges of the full graph whose
   * pair is not in the diversion set.
   */
  lemma DivertedEdges(edges: seq<seq<Num>>, set_: set<(Num, Num)>, x: Num, y: Num)
    requires Ended(edges) && Symmetric(set_)
    ensures Nx.HasEdge(Nx.AddEdges(Nx.Empty(), Kept(edges, set_)), x, y) <==>
      Nx.HasEdge(Nx.AddEdges(Nx.Empty(), Ends(edges)), x, y) && (x, y) !in set_
  {
    Nx.AddEdgesJoins(Nx.Empty(), Kept(edges, set_), x, y);
    Nx.AddEdgesJoins(Nx.Empty(), Ends(edges), x, y);
    KeptAdds(edges, set_, x, y);
    EndsAdds(edges, x, y);
  }

  datatype Colour = Red | Orange | Black

  /** The node sizes: 100 for s and t, 0 for every other node. */
  function NodeSize(u: Num, s: int, t: int): nat
  {
    if u == Int(s) || u == Int(t) then 100 else 0
  }

  /** The colour of an edge in the full and the diverted drawings. */
  function CutColour(e: (Num, Num), d1: int, d2: int): Colour
  {
    if InCut(e, d1, d2) then Red else Black
  }

  function CutWidth(e: (Num, Num), d1: int, d2: int): nat
  {
    if InCut(e, d1, d2) then 4 else 1
  }

  /** The colour of an edge in the partial drawing: the diversion edge, the rest of the set, the others. */
  function PartialColour(e: (Num, Num), d1: int, d2: int, set_: set<(Num, Num)>): Colour
  {
    if InCut(e, d1, d2) then Red else if e in set_ then Orange else Black
  }

  function PartialWidth(e: (Num, Num), d1: int, d2: int, set_: set<(Num, Num)>): nat
  {
    if InCut(e, d1, d2) || e in set_ then 4 else 1
  }

  /** In the partial drawing an edge is drawn wide exactly when it is coloured. */
  lemma PartialWideIffColoured(e: (Num, Num), d1: int, d2: int, set_: set<(Num, Num)>)
    ensures PartialWidth(e, d1, d2, set_) == 4 <==> PartialColour(e, d1, d2, set_) != Black
  {
  }

  /**
   * An edge gets the same colour and width whichever way round networkx
   * reports it, as long as the diversion set holds both orientations.
   */
  lemma StyleOrientation(u: Num, v: Num, d1: int, d2: int, set_: set<(Num, Num)>)
    requires Symmetric(set_)
    ensures CutColour((u, v), d1, d2) == CutColour((v, u), d1, d2)
    ensures CutWidth((u, v), d1, d2) == CutWidth((v, u), d1, d2)
    ensures PartialColour((u, v), d1, d2, set_) == PartialColour((v, u), d1, d2, set_)
    ensures PartialWidth((u, v), d1, d2, set_) == PartialWidth((v, u), d1, d2, set_)
  {
    assert (u, v) in set_ ==> (v, u) in set_;
    assert (v, u) in set_ ==> (u, v) in set_;
  }

  /** The ends of a stored edge, as networkx reports them. */
  function Ends2(e: Nx.Edge<Num>): (Num, Num)
  {
    (e.u, e.v)
  }

  /**
   * When the diversion edge is itself in the diversion set, no edge of
   * the diverted drawing is red.
   */
  lemma DivertedHasNoCut(edges: seq<seq<Num>>, set_: set<(Num, Num)>, d1: int, d2: int)
    requires Ended(edges) && Symmetric(set_) && (Int(d1), Int(d2)) in set_
    ensures var g := Nx.AddEdges(Nx.Empty(), Kept(edges, set_));
      forall k :: 0 <= k < |g.edges| ==> CutColour(Ends2(g.edges[k]), d1, d2) == Black
  {
    var g := Nx.AddEdges(Nx.Empty(), Kept(edges, set_));
    forall k | 0 <= k < |g.edges|
      ensures CutColour(Ends2(g.edges[k]), d1, d2) == Black
    {
      var e := g.edges[k];
      assert Nx.Joins(e, e.u, e.v);
      Nx.AddEdgesJoins(Nx.Empty(), Kept(edges, set_), e.u, e.v);
      KeptAdds(edges, set_, e.u, e.v);
    }
  }

  /** The three drawings' node sizes, colours and widths, and the two graphs. */
  datatype Drawings = Drawings(
    pos: map<Num, (Num, Num)>,
    full: Nx.Graph<Num>,
    diverted: Nx.Graph<Num>,
    nodeSizes: seq<nat>,
    fullColours: seq<Colour>,
    fullWidths: seq<nat>,
    partialColours: seq<Colour>,
    partialWidths: seq<nat>,
    divertedColours: seq<Colour>,
    divertedWidths: seq<nat>)

  /** The drawings prepared from the two graphs, the diversion edge and the diversion set. */
  function Draw(pos: map<Num, (Num, Num)>, full: Nx.Graph<Num>, diverted: Nx.Graph<Num>, s: int, t: int, d1: int, d2: int, set_: set<(Num, Num)>): (r: Drawings)
    ensures |r.nodeSizes| == |full.nodes|
    ensures |r.fullColours| == |r.fullWidths| == |r.partialColours| == |r.partialWidths| == |full.edges|
    ensures |r.divertedColours| == |r.divertedWidths| == |diverted.edges|
    ensures forall k :: 0 <= k < |full.nodes| ==>
      r.nodeSizes[k] == (if full.nodes[k] == Int(s) || full.nodes[k] == Int(t) then 100 else 0)
    ensures forall k :: 0 <= k < |full.edges| ==>
      var e := (full.edges[k].u, full.edges[k].v);
      && (r.fullColours[k] == Red <==> InCut(e, d1, d2)) && r.fullColours[k] != Orange
      && r.fullWidths[k] == (if InCut(e, d1, d2) then 4 else 1)
      && (r.partialColours[k] == Red <==> InCut(e, d1, d2))
      && (r.partialColours[k] == Orange <==> !InCut(e, d1, d2) && e in set_)
      && r.partialWidths[k] == (if InCut(e, d1, d2) || e in set_ then 4 else 1)
    ensures forall k :: 0 <= k < |diverted.edges| ==>
      var e := (diverted.edges[k].u, diverted.edges[k].v);
      && (r.divertedColours[k] == Red <==> InCut(e, d1, d2)) && r.divertedColours[k] != Orange
      && r.divertedWidths[k] == (if InCut(e, d1, d2) then 4 else 1)
  {
    Drawings(
      pos, full, diverted,
      seq(|full.nodes|, k requires 0 <= k < |full.nodes| => NodeSize(full.nodes[k], s, t)),
      seq(|full.edges|, k requires 0 <= k < |full.edges| => CutColour(Ends2(full.edges[k]), d1, d2)),
      seq(|full.edges|, k requires 0 <= k < |full.edges| => CutWidth(Ends2(full.edges[k]), d1, d2)),
      seq(|full.edges|, k requires 0 <= k < |full.edges| => PartialColour(Ends2(full.edges[k]), d1, d2, set_)),
      seq(|full.edges|, k requires 0 <= k < |full.edges| => PartialWidth(Ends2(full.edges[k]), d1, d2, set_)),
      seq(|diverted.edges|, k requires 0 <= k < |diverted.edges| => CutColour(Ends2(diverted.edges[k]), d1, d2)),
      seq(|diverted.edges|, k requires 0 <= k < |diverted.edges| => CutWidth(Ends2(diverted.edges[k]), d1, d2)))
  }

  /** The `.in` file reads without raising. */
  predicate InRead(lines: seq<string>)
  {
    && Text.ParseEach(lines, RowOf).Some?
    && Count(Text.ParseEach(lines, RowOf).value).Ok?
    && var rows := Text.ParseEach(lines, RowOf).value;
       var n := Count(rows).value;
       Triples(Slice(rows, 1, n + 1))
  }

  /** The edge lines of a `.in` file that reads. */
  function InEdges(lines: seq<string>): seq<seq<Num>>
    requires InRead(lines)
  {
    var rows := Text.ParseEach(lines, RowOf).value;
    Slice(rows, Count(rows).value + 1, |rows|)
  }

  /** The positions of a `.in` file that reads. */
  function InPositions(lines: seq<string>): map<Num, (Num, Num)>
    requires InRead(lines)
  {
    var rows := Text.ParseEach(lines, RowOf).value;
    Positions(Slice(rows, 1, Count(rows).value + 1))
  }

  /**
   * `visualize_diversion(folder, file)` up to drawing: the three files read
   * in order (the first error raised ends it), the two graphs built, and
   * the drawings prepared from them.
   */
  method VisualizeDiversion(inLines: seq<string>, divertedLines: seq<string>, diversionText: string)
    returns (r: Result<Drawings, PyError>)
    ensures r.Ok? <==> (InRead(inLines) && AllPairs(RowsOf(divertedLines)) && ParseDiversion(diversionText).Ok?
      && Ended(InEdges(inLines)))
    ensures r.Ok? ==>
      var set_ := PairSet(PairsOf(RowsOf(divertedLines)));
      var edges := InEdges(inLines);
      var (s, t, d1, d2) := ParseDiversion(diversionText).value;
      r.value == Draw(InPositions(inLines), Nx.AddEdges(Nx.Empty(), Ends(edges)), Nx.AddEdges(Nx.Empty(), Kept(edges, set_)), s, t, d1, d2, set_)
  {
    var input := ReadIn(inLines);
    if input.Err? {
      return Err(input.error);
    }
    var set_ := DiversionSet(divertedLines);
    if set_.Err? {
      return Err(set_.error);
    }
    var diversion := ParseDiversion(diversionText);
    if diversion.Err? {
      return Err(diversion.error);
    }
    var (s, t, d1, d2) := diversion.value;
    var graphs := BuildGraphs(input.value.edges, set_.value);
    if graphs.Err? {
      return Err(graphs.error);
    }
    return Ok(Draw(input.value.pos, graphs.value.0, graphs.value.1, s, t, d1, d2, set_.value));
  }
}
