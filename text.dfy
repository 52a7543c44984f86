/**
 * The string operations of Rust's `str` and Python's `str` that the parsers
 * and formatters rely on: trimming, splitting, line iteration, decimal
 * parsing and printing.  Whitespace is the ASCII whitespace set.
 */
module Text {
  import opened Wrappers

  /** `u64::MAX`. */
  const U64_MAX: nat := 0xFFFF_FFFF_FFFF_FFFF

  /** ASCII whitespace: space, tab, line feed, vertical tab, form feed, carriage return. */
  predicate IsSpace(c: char)
  {
    c == ' ' || c == '\t' || c == '\n' || c == '\U{000B}' || c == '\U{000C}' || c == '\r'
  }

  predicate NoSpace(s: string)
  {
    forall i :: 0 <= i < |s| ==> !IsSpace(s[i])
  }

  /** `trim_start` / `lstrip`: drop the leading whitespace. */
  function TrimStart(s: string): (r: string)
    ensures |r| <= |s| && r == s[|s| - |r|..]
    ensures |r| > 0 ==> !IsSpace(r[0])
    ensures forall i :: 0 <= i < |s| - |r| ==> IsSpace(s[i])
  {
    if |s| > 0 && IsSpace(s[0]) then
      var r := TrimStart(s[1..]);
      assert s[1..][|s| - 1 - |r|..] == s[|s| - |r|..];
      assert forall i :: 1 <= i < |s| - |r| ==> s[i] == s[1..][i - 1];
      r
    else s
  }

  /** `trim_end` / `rstrip`: drop the trailing whitespace. */
  function TrimEnd(s: string): (r: string)
    ensures |r| <= |s| && r == s[..|r|]
    ensures |r| > 0 ==> !IsSpace(r[|r| - 1])
    ensures forall i :: |r| <= i < |s| ==> IsSpace(s[i])
  {
    if |s| > 0 && IsSpace(s[|s| - 1]) then TrimEnd(s[..|s| - 1]) else s
  }

  /** `trim` / `strip`: both ends. */
  function Trim(s: string): string
  {
    TrimEnd(TrimStart(s))
  }

  lemma TrimUnchanged(s: string)
    requires |s| > 0 && !IsSpace(s[0]) && !IsSpace(s[|s| - 1])
    ensures Trim(s) == s
  {
    assert TrimStart(s) == s;
    assert TrimEnd(s) == s;
  }

  predicate StartsWith(s: string, c: char)
  {
    |s| > 0 && s[0] == c
  }

  /** `parts.join(sep)` with a one-character separator. */
  function Join(parts: seq<string>, sep: char): string
  {
    if |parts| == 0 then ""
    else if |parts| == 1 then parts[0]
    else parts[0] + [sep] + Join(parts[1..], sep)
  }

  /**
   * `s.split(sep)` with a one-character separator, as in Rust and Python:
   * empty pieces are kept and the empty string gives one empty piece.
   * Joining the pieces back with the separator gives the input.
   */
  function Split(s: string, sep: char): (r: seq<string>)
    ensures |r| >= 1
    ensures forall i :: 0 <= i < |r| ==> sep !in r[i]
    ensures Join(r, sep) == s
    decreases |s|
  {
    if |s| == 0 then [""]
    else
      var rest := Split(s[1..], sep);
      if s[0] == sep then [""] + rest
      else
        var r := [[s[0]] + rest[0]] + rest[1..];
        assert Join(r, sep) == s by {
          if |rest| > 1 {
            assert rest == [rest[0]] + rest[1..];
          }
        }
        r
  }

  /** Splitting a join of separator-free pieces gives the pieces back. */
  lemma {:induction false} SplitJoin(parts: seq<string>, sep: char)
    requires |parts| >= 1
    requires forall i :: 0 <= i < |parts| ==> sep !in parts[i]
    ensures Split(Join(parts, sep), sep) == parts
  {
    if |parts| == 1 {
      SplitNoSep(parts[0], sep);
    } else {
      SplitJoin(parts[1..], sep);
      SplitPiece(parts[0], Join(parts[1..], sep), sep);
      assert parts == [parts[0]] + parts[1..];
    }
  }

  lemma {:induction false} SplitNoSep(p: string, sep: char)
    requires sep !in p
    ensures Split(p, sep) == [p]
    decreases |p|
  {
    if |p| > 0 {
      SplitNoSep(p[1..], sep);
      assert p == [p[0]] + p[1..];
    }
  }

  lemma {:induction false} SplitPiece(p: string, t: string, sep: char)
    requires sep !in p
    ensures Split(p + [sep] + t, sep) == [p] + Split(t, sep)
    decreases |p|
  {
    var s := p + [sep] + t;
    if |p| == 0 {
      assert s[1..] == t;
    } else {
      assert s[1..] == p[1..] + [sep] + t;
      SplitPiece(p[1..], t, sep);
      assert [p[0]] + p[1..] == p;
    }
  }

  /** Splitting at a separator splits the two sides independently. */
  lemma {:induction false} SplitAppend(a: string, b: string, sep: char)
    ensures Split(a + [sep] + b, sep) == Split(a, sep) + Split(b, sep)
    decreases |a|
  {
    var s := a + [sep] + b;
    if |a| == 0 {
      assert s[1..] == b;
    } else {
      assert s[1..] == a[1..] + [sep] + b;
      SplitAppend(a[1..], b, sep);
    }
  }

  /** The longest whitespace-free prefix of s. */
  function Token(s: string): (r: string)
    ensures |r| <= |s| && r == s[..|r|]
    ensures NoSpace(r)
    ensures |r| < |s| ==> IsSpace(s[|r|])
  {
    if |s| == 0 || IsSpace(s[0]) then "" else [s[0]] + Token(s[1..])
  }

  /**
   * `split_whitespace` (Rust) and `split()` with no argument (Python):
   * the maximal runs of non-whitespace characters, in order.
   */
  function SplitWs(s: string): (r: seq<string>)
    ensures |r| <= |s|
    decreases |s|
  {
    var t := TrimStart(s);
    if |t| == 0 then []
    else
      var tok := Token(t);
      assert !IsSpace(t[0]);
      [tok] + SplitWs(t[|tok|..])
  }

  /** Every word `SplitWs` gives is non-empty and free of whitespace. */
  lemma {:induction false} SplitWsWords(s: string)
    ensures forall i :: 0 <= i < |SplitWs(s)| ==> |SplitWs(s)[i]| > 0 && NoSpace(SplitWs(s)[i])
    decreases |s|
  {
    var t := TrimStart(s);
    if |t| > 0 {
      var tok := Token(t);
      assert !IsSpace(t[0]);
      SplitWsWords(t[|tok|..]);
      var r := SplitWs(s);
      assert r == [tok] + SplitWs(t[|tok|..]);
      forall i | 0 <= i < |r|
        ensures |r[i]| > 0 && NoSpace(r[i])
      {
        if i > 0 {
          assert r[i] == SplitWs(t[|tok|..])[i - 1];
        }
      }
    }
  }

  /** Words joined by single spaces split back into the same words. */
  lemma {:induction false} SplitWsJoin(words: seq<string>)
    requires forall i :: 0 <= i < |words| ==> |words[i]| > 0 && NoSpace(words[i])
    ensures SplitWs(Join(words, ' ')) == words
  {
    if |words| == 1 {
      SplitWsWord(words[0]);
    } else if |words| > 1 {
      SplitWsJoin(words[1..]);
      SplitWsCons(words[0], Join(words[1..], ' '));
      assert words == [words[0]] + words[1..];
    }
  }

  lemma SplitWsNewline()
    ensures SplitWs("\n") == []
  {
    assert "\n"[1..] == "";
    assert TrimStart("\n") == "";
  }

  lemma SplitWsLastWord(w: string)
    requires |w| > 0 && NoSpace(w)
    ensures SplitWs(w + "\n") == [w]
  {
    var s := w + "\n";
    assert !IsSpace(s[0]);
    assert TrimStart(s) == s;
    TokenOf(w, "\n");
    assert s[|w|..] == "\n";
    SplitWsNewline();
  }

  lemma SplitWsLineCons(w: string, j: string)
    requires |w| > 0 && NoSpace(w)
    ensures SplitWs(w + [' '] + j + "\n") == [w] + SplitWs(j + "\n")
  {
    assert w + [' '] + j + "\n" == w + [' '] + (j + "\n");
    SplitWsCons(w, j + "\n");
  }

  /** A line of words ending in its line feed, as `readlines` gives it, splits back into the words. */
  lemma {:induction false} SplitWsLine(words: seq<string>)
    requires forall i :: 0 <= i < |words| ==> |words[i]| > 0 && NoSpace(words[i])
    ensures SplitWs(Join(words, ' ') + "\n") == words
  {
    if |words| == 0 {
      SplitWsNewline();
    } else if |words| == 1 {
      SplitWsLastWord(words[0]);
    } else {
      SplitWsLine(words[1..]);
      assert Join(words, ' ') == words[0] + [' '] + Join(words[1..], ' ');
      SplitWsLineCons(words[0], Join(words[1..], ' '));
      assert words == [words[0]] + words[1..];
    }
  }

  lemma SplitWsWord(w: string)
    requires |w| > 0 && NoSpace(w)
    ensures SplitWs(w) == [w]
  {
    assert TrimStart(w) == w;
    TokenAll(w);
    assert w[|w|..] == "";
    assert SplitWs("") == [];
  }

  lemma {:induction false} TokenAll(w: string)
    requires NoSpace(w)
    ensures Token(w) == w
    decreases |w|
  {
    if |w| > 0 {
      TokenAll(w[1..]);
      assert [w[0]] + w[1..] == w;
    }
  }

  lemma SplitWsCons(w: string, rest: string)
    requires |w| > 0 && NoSpace(w)
    ensures SplitWs(w + [' '] + rest) == [w] + SplitWs(rest)
  {
    var s := w + [' '] + rest;
    assert TrimStart(s) == s;
    TokenOf(w, [' '] + rest);
    assert s == w + ([' '] + rest);
    assert s[|w|..] == [' '] + rest;
    assert TrimStart([' '] + rest) == TrimStart(rest) by {
      assert ([' '] + rest)[1..] == rest;
    }
  }

  lemma {:induction false} TokenOf(w: string, rest: string)
    requires NoSpace(w)
    requires |rest| > 0 && IsSpace(rest[0])
    ensures Token(w + rest) == w
    decreases |w|
  {
    if |w| > 0 {
      assert (w + rest)[1..] == w[1..] + rest;
      TokenOf(w[1..], rest);
      assert [w[0]] + w[1..] == w;
    }
  }

  /** Drop one trailing carriage return. */
  function StripCr(p: string): (r: string)
    ensures r == p || (p == r + ['\r'])
  {
    if |p| > 0 && p[|p| - 1] == '\r' then p[..|p| - 1] else p
  }

  /**
   * Rust's `str::lines`: the pieces between line feeds, where a piece that
   * is followed by a line feed loses one trailing carriage return, and a
   * final empty piece (after a last line feed, or of the empty string)
   * is not a line.
   */
  function Lines(s: string): (r: seq<string>)
    ensures forall i :: 0 <= i < |r| ==> '\n' !in r[i]
    ensures '\n' !in s && s != "" ==> r == [s]
  {
    var pieces := Split(s, '\n');
    var k := |pieces| - 1;
    var last := pieces[k];
    seq(k, i requires 0 <= i < k => StripCr(pieces[i])) + (if last == "" then [] else [last])
  }

  predicate IsDigit(c: char)
  {
    '0' <= c <= '9'
  }

  predicate AllDigits(s: string)
  {
    forall i :: 0 <= i < |s| ==> IsDigit(s[i])
  }

  function DigitValue(c: char): (d: nat)
    requires IsDigit(c)
    ensures d < 10
  {
    (c as int) - ('0' as int)
  }

  function DigitChar(d: nat): (c: char)
    requires d < 10
    ensures IsDigit(c) && DigitValue(c) == d
  {
    ('0' as int + d) as char
  }

  /** The value of a string of decimal digits, most significant first. */
  function DigitsValue(s: string): nat
    requires AllDigits(s)
  {
    if |s| == 0 then 0 else DigitsValue(s[..|s| - 1]) * 10 + DigitValue(s[|s| - 1])
  }

  /**
   * `str::parse::<u64>()` (and `usize` on a 64-bit target): an optional `+`,
   * then at least one decimal digit, with a value that fits in 64 bits.
   */
  function ParseU64(s: string): (r: Option<nat>)
    ensures r.Some? ==> r.value <= U64_MAX
    ensures r.Some? ==> |s| > 0 && (IsDigit(s[0]) || s[0] == '+')
  {
    var digits := if StartsWith(s, '+') then s[1..] else s;
    if |digits| == 0 || !AllDigits(digits) then None
    else
      var v := DigitsValue(digits);
      if v <= U64_MAX then Some(v) else None
  }

  /** The decimal representation of n, without sign or leading zeros (`to_string`). */
  function NatToString(n: nat): (r: string)
    ensures |r| > 0 && AllDigits(r)
    ensures DigitsValue(r) == n
    ensures |r| > 1 ==> r[0] != '0'
  {
    if n < 10 then [DigitChar(n)]
    else
      var r := NatToString(n / 10) + [DigitChar(n % 10)];
      assert r[..|r| - 1] == NatToString(n / 10);
      r
  }

  /** Printing a 64-bit value and parsing it back is the identity. */
  lemma ParseNatToString(n: nat)
    requires n <= U64_MAX
    ensures ParseU64(NatToString(n)) == Some(n)
  {
    var s := NatToString(n);
    assert !StartsWith(s, '+') by { assert IsDigit(s[0]); }
  }

  /** Python's `str(i)` for an integer. */
  function IntToString(i: int): (r: string)
    ensures |r| > 0
  {
    if i < 0 then "-" + NatToString(-i) else NatToString(i)
  }

  /**
   * Python's `int(s)` on a decimal string: surrounding whitespace is
   * ignored, an optional sign, then at least one digit.
   */
  function ParseInt(s: string): (r: Option<int>)
  {
    var t := Trim(s);
    var neg := StartsWith(t, '-');
    var digits := if neg || StartsWith(t, '+') then t[1..] else t;
    if |digits| == 0 || !AllDigits(digits) then None
    else
      var v: int := DigitsValue(digits);
      Some(if neg then -v else v)
  }

  /** `int(str(i)) == i`. */
  lemma ParseIntToString(i: int)
    ensures ParseInt(IntToString(i)) == Some(i)
  {
    var s := IntToString(i);
    var d := NatToString(if i < 0 then -i else i);
    assert IsDigit(d[0]) && IsDigit(d[|d| - 1]);
    assert s[|s| - 1] == d[|d| - 1];
    TrimUnchanged(s);
    if i < 0 {
      assert s[1..] == d;
    }
  }

  /** Python's `[parse(u) for u in words]`: every word parsed, or None when one of them raises. */
  function ParseEach<T>(words: seq<string>, parse: string -> Option<T>): Option<seq<T>>
  {
    if |words| == 0 then Some([])
    else
      match (parse(words[0]), ParseEach(words[1..], parse))
      case (Some(x), Some(xs)) => Some([x] + xs)
      case _ => None
  }

  /** Words that each parse give the sequence of their values. */
  lemma {:induction false} ParseEachAll<T>(words: seq<string>, parse: string -> Option<T>, xs: seq<T>)
    requires |xs| == |words|
    requires forall i :: 0 <= i < |words| ==> parse(words[i]) == Some(xs[i])
    ensures ParseEach(words, parse) == Some(xs)
  {
    if |words| > 0 {
      assert forall i :: 0 <= i < |words| - 1 ==> words[1..][i] == words[i + 1] && xs[1..][i] == xs[i + 1];
      ParseEachAll(words[1..], parse, xs[1..]);
      assert xs == [xs[0]] + xs[1..];
    }
  }

  /** Every word parsed exactly when each word parses, and then the values are those of the words, in order. */
  lemma {:induction false} ParseEachSome<T>(words: seq<string>, parse: string -> Option<T>)
    ensures ParseEach(words, parse).Some? <==> forall i :: 0 <= i < |words| ==> parse(words[i]).Some?
    ensures ParseEach(words, parse).Some? ==>
      |ParseEach(words, parse).value| == |words|
      && forall i :: 0 <= i < |words| ==> ParseEach(words, parse).value[i] == parse(words[i]).value
  {
    if |words| > 0 {
      ParseEachSome(words[1..], parse);
      assert forall i :: 1 <= i < |words| ==> words[1..][i - 1] == words[i];
    }
  }

  /** `str(i)` is a non-empty word that starts with a digit or a minus sign. */
  lemma IntToStringWord(i: int)
    ensures |IntToString(i)| > 0 && NoSpace(IntToString(i))
    ensures IntToString(i)[0] == '-' || IsDigit(IntToString(i)[0])
  {
    var d := NatToString(if i < 0 then -i else i);
    assert forall k :: 0 <= k < |d| ==> IsDigit(d[k]);
    if i < 0 {
      assert forall k :: 1 <= k < |IntToString(i)| ==> IntToString(i)[k] == d[k - 1];
    }
  }

  /** A decimal string contains no character other than digits. */
  lemma NatToStringOnlyDigits(n: nat, c: char)
    requires !IsDigit(c)
    ensures c !in NatToString(n)
  {
  }

  /** Numbers printed in decimal and separated by single spaces. */
  function Fields(nums: seq<nat>): string
  {
    Join(seq(|nums|, i requires 0 <= i < |nums| => NatToString(nums[i])), ' ')
  }

  /** Splitting `Fields(nums)` on spaces gives back the decimal strings of the numbers. */
  lemma SplitFields(nums: seq<nat>)
    requires |nums| >= 1
    ensures Split(Fields(nums), ' ') == seq(|nums|, i requires 0 <= i < |nums| => NatToString(nums[i]))
  {
    var parts := seq(|nums|, i requires 0 <= i < |nums| => NatToString(nums[i]));
    forall i | 0 <= i < |parts|
      ensures ' ' !in parts[i]
    {
      NatToStringOnlyDigits(nums[i], ' ');
    }
    SplitJoin(parts, ' ');
  }
}
