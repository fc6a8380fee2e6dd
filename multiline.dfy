/**
 * Global, multiline removal, `s.replace(new RegExp("^" + ..., "gm"), "")`, for the three
 * anchored patterns the comment parsers build: a literal prefix, a literal prefix followed by
 * a repeated character, and `\s*\*`.
 */
module Multiline {
  import opened Wrappers
  import opened JsText

  /** An expression anchored with `^`, matched at the start of every line. */
  datatype Pattern =
    | Literal(text: string)
    | LiteralThenRun(text: string, c: char)
    | StarPrefix

  /** The end of the run of `c` that starts at `q`. */
  function RunEnd(t: string, q: nat, c: char): (e: nat)
    requires q <= |t|
    ensures q <= e <= |t|
    decreases |t| - q
  {
    if q < |t| && t[q] == c then RunEnd(t, q + 1, c) else q
  }

  /** The run is all `c` and stops before a character that is not `c`. */
  lemma {:induction false} RunEndMeaning(t: string, q: nat, c: char)
    requires q <= |t|
    ensures forall k :: q <= k < RunEnd(t, q, c) ==> t[k] == c
    ensures RunEnd(t, q, c) < |t| ==> t[RunEnd(t, q, c)] != c
    decreases |t| - q
  {
    if q < |t| && t[q] == c {
      RunEndMeaning(t, q + 1, c);
    }
  }

  /** The length of a match of the literal `w` at the start of `t`. */
  function LiteralLen(w: string, t: string): Option<nat> {
    if |w| <= |t| && t[..|w|] == w then Some(|w|) else None
  }

  /** The length of a match of `\s*\*` at the start of `t`. */
  function StarLen(t: string): Option<nat> {
    var k := SpaceEnd(t, 0);
    if k < |t| && t[k] == '*' then Some(k + 1) else None
  }

  /** The length of the (greedy) match of `pat` at the start of `t`, if it matches there. */
  function MatchLen(pat: Pattern, t: string): (r: Option<nat>)
    ensures r.Some? ==> r.value <= |t|
  {
    match pat
    case Literal(w) => LiteralLen(w, t)
    case LiteralThenRun(w, c) =>
      if LiteralLen(w, t).Some? then Some(RunEnd(t, |w|, c)) else None
    case StarPrefix => StarLen(t)
  }

  /**
   * What is left of `t` once every match is removed, where `atStart` says whether `^` matches
   * at the start of `t` (under the `m` flag: the start of the input, or just after a line
   * terminator). The search resumes after each match; an empty match removes nothing and the
   * search moves one character on.
   */
  function Gm(pat: Pattern, t: string, atStart: bool): (r: string)
    ensures |r| <= |t|
    decreases |t|
  {
    if t == [] then ""
    else if atStart && MatchLen(pat, t).Some? && MatchLen(pat, t).value > 0 then
      var n := MatchLen(pat, t).value;
      Gm(pat, t[n..], IsLineTerminator(t[n - 1]))
    else [t[0]] + Gm(pat, t[1..], IsLineTerminator(t[0]))
  }

  /** The whole replacement. */
  function Replace(pat: Pattern, s: string): string {
    Gm(pat, s, true)
  }

  /** The same pattern replaced on one line alone, where only its start is a line start. */
  function Strip(pat: Pattern, line: string): (r: string)
    ensures MatchLen(pat, line).None? ==> r == line
    ensures MatchLen(pat, line).Some? ==> r == line[MatchLen(pat, line).value..]
  {
    var m := MatchLen(pat, line);
    if m.Some? then line[m.value..] else line
  }

  /** `Strip` applied to every line. */
  function StripAll(pat: Pattern, lines: seq<string>): (r: seq<string>)
    ensures |r| == |lines|
    ensures forall i :: 0 <= i < |lines| ==> r[i] == Strip(pat, lines[i])
  {
    seq(|lines|, i requires 0 <= i < |lines| => Strip(pat, lines[i]))
  }

  predicate NoTerminator(s: string) {
    forall k :: 0 <= k < |s| ==> !IsLineTerminator(s[k])
  }

  /**
   * A match of `pat` on a line cannot reach into the next line: the literal parts hold no
   * line terminator, and for `\s*\*` the line holds something other than white space (or is
   * the last line).
   */
  predicate LineLocal(pat: Pattern, line: string, last: bool) {
    match pat
    case Literal(w) => w != "" && NoTerminator(w)
    case LiteralThenRun(w, c) => NoTerminator(w) && !IsLineTerminator(c)
    case StarPrefix => last || SpaceEnd(line, 0) < |line|
  }

  /** Past a non-space character, the white-space run ends in the line whatever follows. */
  lemma {:induction false} SpaceEndPrefix(l: string, r: string, q: nat)
    requires q <= |l| && SpaceEnd(l, q) < |l|
    ensures SpaceEnd(l + r, q) == SpaceEnd(l, q)
    decreases |l| - q
  {
    if IsSpace(l[q]) {
      SpaceEndPrefix(l, r, q + 1);
    }
  }

  /** The run of `c` stops at the end of the line. */
  lemma {:induction false} RunEndPrefix(l: string, r: string, q: nat, c: char)
    requires q <= |l| && (r == [] || r[0] != c)
    ensures RunEnd(l + r, q, c) == RunEnd(l, q, c)
    decreases |l| - q
  {
    if q < |l| && l[q] == c {
      RunEndPrefix(l, r, q + 1, c);
    }
  }

  /** A literal cannot match across a line terminator it does not hold. */
  lemma LiteralLocal(w: string, l: string, r: string)
    requires NoTerminator(w)
    requires r == [] || IsLineTerminator(r[0])
    ensures LiteralLen(w, l + r) == LiteralLen(w, l)
  {
    var t := l + r;
    if |w| <= |l| {
      assert t[..|w|] == l[..|w|];
    } else if |w| <= |t| {
      assert t[..|w|][|l|] == r[0];
      assert t[..|w|][|l|] != w[|l|];
    }
  }

  /** A line-local pattern matches a line and what follows it as it matches the line alone. */
  lemma LocalMatch(pat: Pattern, l: string, r: string)
    requires NoTerminator(l)
    requires r == [] || IsLineTerminator(r[0])
    requires LineLocal(pat, l, r == [])
    ensures MatchLen(pat, l + r) == MatchLen(pat, l)
  {
    var t := l + r;
    match pat
    case Literal(w) =>
      LiteralLocal(w, l, r);
    case LiteralThenRun(w, c) =>
      LiteralLocal(w, l, r);
      if LiteralLen(w, l).Some? {
        RunEndPrefix(l, r, |w|, c);
      }
    case StarPrefix =>
      if r != [] {
        SpaceEndPrefix(l, r, 0);
      } else {
        assert t == l;
      }
  }

  /** Where no line starts, nothing is removed. */
  lemma {:induction false} GmNoStart(pat: Pattern, t: string, e: nat)
    requires e <= |t|
    requires forall k :: 0 <= k < e ==> !IsLineTerminator(t[k])
    ensures Gm(pat, t, false) == t[..e] + Gm(pat, t[e..], false)
    decreases e
  {
    if e > 0 {
      var u := t[1..];
      assert Gm(pat, t, false) == [t[0]] + Gm(pat, u, false) by {
        assert !IsLineTerminator(t[0]);
      }
      assert Gm(pat, u, false) == u[..e - 1] + Gm(pat, u[e - 1..], false) by {
        forall k | 0 <= k < e - 1
          ensures !IsLineTerminator(u[k])
        {
          assert u[k] == t[k + 1];
        }
        GmNoStart(pat, u, e - 1);
      }
      assert u[e - 1..] == t[e..];
      assert t[..e] == [t[0]] + u[..e - 1];
    } else {
      assert t[..e] == [] && t[e..] == t;
    }
  }

  /** Text without a line terminator, where no line starts, is kept whole. */
  lemma GmNoStartLine(pat: Pattern, l: string, r: string)
    requires NoTerminator(l)
    ensures Gm(pat, l + r, false) == l + Gm(pat, r, false)
  {
    var t := l + r;
    assert forall k :: 0 <= k < |l| ==> t[k] == l[k];
    GmNoStart(pat, t, |l|);
    assert t[..|l|] == l && t[|l|..] == r;
  }

  /** The rest of a line is a line too. */
  lemma NoTerminatorDrop(l: string, n: nat)
    requires NoTerminator(l) && n <= |l|
    ensures NoTerminator(l[n..])
  {
    assert forall k :: 0 <= k < |l| - n ==> l[n..][k] == l[n + k];
  }

  /** One step of the search at a line start where a match of positive length starts. */
  lemma GmMatchStep(pat: Pattern, t: string, n: nat)
    requires MatchLen(pat, t) == Some(n) && n > 0
    ensures Gm(pat, t, true) == Gm(pat, t[n..], IsLineTerminator(t[n - 1]))
  {
  }

  /** One step of the search where no match of positive length starts. */
  lemma GmKeepStep(pat: Pattern, t: string, atStart: bool)
    requires t != [] && !(atStart && MatchLen(pat, t).Some? && MatchLen(pat, t).value > 0)
    ensures Gm(pat, t, atStart) == [t[0]] + Gm(pat, t[1..], IsLineTerminator(t[0]))
  {
  }

  /** A line whose start matches loses the match and nothing else. */
  lemma GmLineMatched(pat: Pattern, l: string, r: string, n: nat)
    requires NoTerminator(l)
    requires MatchLen(pat, l + r) == Some(n) && 0 < n <= |l|
    ensures Gm(pat, l + r, true) == l[n..] + Gm(pat, r, false)
  {
    var s := l + r;
    var u := l[n..] + r;
    assert Gm(pat, s, true) == Gm(pat, u, false) by {
      GmMatchStep(pat, s, n);
      assert s[n..] == u && s[n - 1] == l[n - 1];
    }
    assert Gm(pat, u, false) == l[n..] + Gm(pat, r, false) by {
      NoTerminatorDrop(l, n);
      GmNoStartLine(pat, l[n..], r);
    }
  }

  /** A line whose start does not match is kept whole. */
  lemma GmLineKept(pat: Pattern, l: string, r: string)
    requires NoTerminator(l) && l != []
    requires !(MatchLen(pat, l + r).Some? && MatchLen(pat, l + r).value > 0)
    ensures Gm(pat, l + r, true) == l + Gm(pat, r, false)
  {
    var s := l + r;
    var u := l[1..] + r;
    assert Gm(pat, s, true) == [l[0]] + Gm(pat, u, false) by {
      GmKeepStep(pat, s, true);
      assert s[1..] == u && s[0] == l[0];
    }
    assert Gm(pat, u, false) == l[1..] + Gm(pat, r, false) by {
      NoTerminatorDrop(l, 1);
      GmNoStartLine(pat, l[1..], r);
    }
    assert l == [l[0]] + l[1..];
  }

  /** On a line-local pattern, one line is replaced as if it stood alone. */
  lemma GmLine(pat: Pattern, l: string, r: string)
    requires NoTerminator(l)
    requires r == [] || IsLineTerminator(r[0])
    requires LineLocal(pat, l, r == [])
    ensures Gm(pat, l + r, true) == Strip(pat, l) + Gm(pat, r, l == [])
  {
    LocalMatch(pat, l, r);
    var m := MatchLen(pat, l);
    if l == [] {
      assert l + r == r;
    } else if m.Some? && m.value > 0 {
      GmLineMatched(pat, l, r, m.value);
    } else {
      GmLineKept(pat, l, r);
    }
  }

  /** The line feed that ends a line is kept unless a match starts on it. */
  lemma GmNewline(pat: Pattern, rest: string, atStart: bool)
    requires !(atStart && MatchLen(pat, "\n" + rest).Some? && MatchLen(pat, "\n" + rest).value > 0)
    ensures Gm(pat, "\n" + rest, atStart) == "\n" + Gm(pat, rest, true)
  {
    assert ("\n" + rest)[1..] == rest;
  }

  /** A line-local pattern makes no match that starts on the line feed after an empty line. */
  lemma NoMatchAtNewline(pat: Pattern, rest: string)
    requires LineLocal(pat, [], false)
    ensures !(MatchLen(pat, "\n" + rest).Some? && MatchLen(pat, "\n" + rest).value > 0)
  {
    var r := "\n" + rest;
    LocalMatch(pat, [], r);
    assert [] + r == r;
  }

  /** The first of several lines is replaced as if it stood alone, and its line feed kept. */
  lemma GmFirstLine(pat: Pattern, l: string, rest: string)
    requires NoTerminator(l) && LineLocal(pat, l, false)
    ensures Gm(pat, l + "\n" + rest, true) == Strip(pat, l) + "\n" + Gm(pat, rest, true)
  {
    var r := "\n" + rest;
    var x := Gm(pat, rest, true);
    assert Gm(pat, l + r, true) == Strip(pat, l) + Gm(pat, r, l == []) by {
      GmLine(pat, l, r);
    }
    assert Gm(pat, r, l == []) == "\n" + x by {
      if l == [] {
        NoMatchAtNewline(pat, rest);
      }
      GmNewline(pat, rest, l == []);
    }
    assert l + "\n" + rest == l + r;
    assert Strip(pat, l) + ("\n" + x) == Strip(pat, l) + "\n" + x;
  }

  /**
   * On lines without line terminators, joined by `"\n"`, the global multiline replacement
   * removes the pattern from the start of each line and nowhere else.
   */
  lemma {:induction false} GmLines(pat: Pattern, lines: seq<string>)
    requires |lines| >= 1
    requires forall i :: 0 <= i < |lines| ==> NoTerminator(lines[i]) && LineLocal(pat, lines[i], i == |lines| - 1)
    ensures Replace(pat, Join(lines, "\n")) == Join(StripAll(pat, lines), "\n")
  {
    var l := lines[0];
    if |lines| == 1 {
      GmLine(pat, l, []);
      assert l + [] == l;
    } else {
      var tail := lines[1..];
      var rest := Join(tail, "\n");
      assert Join(lines, "\n") == l + "\n" + rest;
      GmFirstLine(pat, l, rest);
      forall i | 0 <= i < |tail|
        ensures NoTerminator(tail[i]) && LineLocal(pat, tail[i], i == |tail| - 1)
      {
        assert tail[i] == lines[i + 1];
      }
      GmLines(pat, tail);
      assert Gm(pat, rest, true) == Join(StripAll(pat, tail), "\n");
      var stripped := StripAll(pat, lines);
      assert stripped[1..] == StripAll(pat, tail);
      assert Join(stripped, "\n") == stripped[0] + "\n" + Join(stripped[1..], "\n");
    }
  }
}
