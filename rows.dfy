/**
 * Reading the rows of a graph file: the comment filters the parsers apply
 * to their lines, and parsing every row with one row parser, where the
 * first row that fails decides the error.
 */
module Rows {
  import opened Wrappers
  import Text

  /** The lines kept by `filter(|l| !l.trim_start().starts_with("%"))`. */
  function DropPercent(ls: seq<string>): (r: seq<string>)
    ensures |r| <= |ls|
    ensures forall i :: 0 <= i < |r| ==> !Text.StartsWith(Text.TrimStart(r[i]), '%') && r[i] in ls
    ensures forall l :: l in ls && !Text.StartsWith(Text.TrimStart(l), '%') ==> l in r
  {
    if |ls| == 0 then []
    else if Text.StartsWith(Text.TrimStart(ls[0]), '%') then DropPercent(ls[1..])
    else [ls[0]] + DropPercent(ls[1..])
  }

  /**
   * The filter works line by line and keeps the order: the kept lines of
   * two runs of lines are those of the first run followed by those of the
   * second.
   */
  lemma {:induction false} DropPercentAppend(xs: seq<string>, ys: seq<string>)
    ensures DropPercent(xs + ys) == DropPercent(xs) + DropPercent(ys)
    decreases |xs|
  {
    if |xs| == 0 {
      assert xs + ys == ys;
    } else {
      assert (xs + ys)[0] == xs[0];
      assert (xs + ys)[1..] == xs[1..] + ys;
      DropPercentAppend(xs[1..], ys);
      if !Text.StartsWith(Text.TrimStart(xs[0]), '%') {
        assert [xs[0]] + (DropPercent(xs[1..]) + DropPercent(ys)) == ([xs[0]] + DropPercent(xs[1..])) + DropPercent(ys);
      }
    }
  }

  /** One line is kept, untouched, exactly when its left-trimmed text does not start with `%`. */
  lemma DropPercentOne(l: string)
    ensures DropPercent([l]) == if Text.StartsWith(Text.TrimStart(l), '%') then [] else [l]
  {
    assert [l][1..] == [];
  }

  /** The lines kept by `map(str::trim).filter(|l| !l.is_empty() && !l.starts_with('%'))`. */
  function TrimDropEmptyPercent(ls: seq<string>): (r: seq<string>)
    ensures |r| <= |ls|
    ensures forall i :: 0 <= i < |r| ==> r[i] != [] && r[i][0] != '%' && r[i] == Text.Trim(r[i])
  {
    if |ls| == 0 then []
    else
      var l := Text.Trim(ls[0]);
      var rest := TrimDropEmptyPercent(ls[1..]);
      if l == [] || l[0] == '%' then rest
      else
        TrimIdempotent(ls[0]);
        [l] + rest
  }

  /**
   * The filter works line by line and keeps the order: the kept lines of
   * two runs of lines are those of the first run followed by those of the
   * second.
   */
  lemma {:induction false} TrimDropEmptyPercentAppend(xs: seq<string>, ys: seq<string>)
    ensures TrimDropEmptyPercent(xs + ys) == TrimDropEmptyPercent(xs) + TrimDropEmptyPercent(ys)
    decreases |xs|
  {
    if |xs| == 0 {
      assert xs + ys == ys;
    } else {
      assert (xs + ys)[0] == xs[0];
      assert (xs + ys)[1..] == xs[1..] + ys;
      TrimDropEmptyPercentAppend(xs[1..], ys);
      var l := Text.Trim(xs[0]);
      if l == [] || l[0] == '%' {
        calc {
          TrimDropEmptyPercent(xs + ys);
          TrimDropEmptyPercent(xs[1..] + ys);
        }
      } else {
        calc {
          TrimDropEmptyPercent(xs + ys);
          [l] + TrimDropEmptyPercent(xs[1..] + ys);
          [l] + (TrimDropEmptyPercent(xs[1..]) + TrimDropEmptyPercent(ys));
          ([l] + TrimDropEmptyPercent(xs[1..])) + TrimDropEmptyPercent(ys);
        }
      }
    }
  }

  /** Every line whose trimmed text is non-empty and does not start with `%` is kept, trimmed. */
  lemma {:induction false} TrimDropEmptyPercentKeeps(ls: seq<string>, l: string)
    requires l in ls && Text.Trim(l) != [] && Text.Trim(l)[0] != '%'
    ensures Text.Trim(l) in TrimDropEmptyPercent(ls)
    decreases |ls|
  {
    if ls[0] != l {
      assert l in ls[1..];
      TrimDropEmptyPercentKeeps(ls[1..], l);
    }
  }

  /** One line is kept, trimmed, exactly when its trimmed text is non-empty and does not start with `%`. */
  lemma TrimDropEmptyPercentOne(l: string)
    ensures TrimDropEmptyPercent([l]) == if Text.Trim(l) == [] || Text.Trim(l)[0] == '%' then [] else [Text.Trim(l)]
  {
    assert [l][1..] == [];
  }

  /** Trimming a trimmed line changes nothing. */
  lemma TrimIdempotent(s: string)
    ensures Text.Trim(Text.Trim(s)) == Text.Trim(s)
  {
    var t := Text.Trim(s);
    if |t| > 0 {
      assert Text.TrimStart(s)[..|t|] == t;
      Text.TrimUnchanged(t);
    }
  }

  /**
   * Every row parsed in order; the first row that fails gives the error.
   * Defined on the last row so that a loop over the rows follows it.
   */
  function ParseRows<T>(rows: seq<string>, parse: string -> Result<T, string>): (r: Result<seq<T>, string>)
    ensures r.Ok? ==> |r.value| == |rows| && forall i :: 0 <= i < |rows| ==> parse(rows[i]) == Ok(r.value[i])
    ensures r.Ok? <==> forall i :: 0 <= i < |rows| ==> parse(rows[i]).Ok?
  {
    if |rows| == 0 then Ok([])
    else
      match ParseRows(rows[..|rows| - 1], parse)
      case Err(e) => Err(e)
      case Ok(init) =>
        match parse(rows[|rows| - 1])
        case Err(e) => Err(e)
        case Ok(x) => Ok(init + [x])
  }

  /** When a row fails, the error is that of the first failing row. */
  lemma {:induction false} ParseRowsFirstError<T>(rows: seq<string>, parse: string -> Result<T, string>, k: nat)
    requires k < |rows| && parse(rows[k]).Err?
    requires forall i :: 0 <= i < k ==> parse(rows[i]).Ok?
    ensures ParseRows(rows, parse) == Err(parse(rows[k]).error)
  {
    if k < |rows| - 1 {
      ParseRowsFirstError(rows[..|rows| - 1], parse, k);
    } else {
      assert ParseRows(rows[..|rows| - 1], parse).Ok?;
    }
  }

  /** One more row parsed: the loop step of a parser that stops at the first failing row. */
  lemma ParseRowsStep<T>(rows: seq<string>, parse: string -> Result<T, string>, i: nat)
    requires i < |rows| && ParseRows(rows[..i], parse).Ok?
    ensures parse(rows[i]).Ok? ==> ParseRows(rows[..i + 1], parse) == Ok(ParseRows(rows[..i], parse).value + [parse(rows[i]).value])
    ensures parse(rows[i]).Err? ==> ParseRows(rows, parse) == Err(parse(rows[i]).error)
  {
    assert rows[..i + 1][..i] == rows[..i];
    if parse(rows[i]).Err? {
      assert forall j :: 0 <= j < i ==> parse(rows[..i][j]).Ok?;
      ParseRowsFirstError(rows, parse, i);
    }
  }
}
