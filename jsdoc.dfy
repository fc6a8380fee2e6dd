/**
 * jquery.jsdoc.js: a wrapper around the external doctrine parser. `parse.comment` cleans one
 * comment and hands it to the parser, catching its failure on request; `parse.comments`
 * finds the doc comments of a source text and records each parse with its line number.
 */
module JsDoc {
  import opened Wrappers
  import opened JsText
  import opened Multiline
  import opened DocBlocks

  // ---------------------------------------------------------------------------------------
  // unindent

  /** What `content.match(/^(\s+\*?)/)` captures: white space, then possibly a star. */
  datatype Indent = Indent(space: string, starred: bool)

  /** The capture as text. */
  function Captured(ind: Indent): string {
    ind.space + (if ind.starred then "*" else "")
  }

  /** The match at the start of the content, if the content starts with white space. */
  function LeadingIndent(content: string): (r: Option<Indent>)
    ensures r.None? <==> (content == [] || !IsSpace(content[0]))
    ensures r.Some? ==>
      var w := Captured(r.value);
      r.value.space != [] && |w| <= |content| && content[..|w|] == w &&
      (forall k :: 0 <= k < |r.value.space| ==> IsSpace(r.value.space[k])) &&
      (|r.value.space| < |content| ==> !IsSpace(content[|r.value.space|])) &&
      (r.value.starred <==> |r.value.space| < |content| && content[|r.value.space|] == '*')
  {
    var k := SpaceEnd(content, 0);
    if k == 0 then None
    else
      var starred := k < |content| && content[k] == '*';
      assert starred ==> content[..k + 1] == content[..k] + "*";
      Some(Indent(content[..k], starred))
  }

  /**
   * `new RegExp('^' + indent[1], 'gm')` as written: the capture is not escaped, so a captured
   * star repeats the white-space character before it instead of standing for itself.
   */
  function AsWrittenPattern(ind: Indent): Pattern
    requires ind.space != []
  {
    var n := |ind.space|;
    if ind.starred then LiteralThenRun(ind.space[..n - 1], ind.space[n - 1]) else Literal(ind.space)
  }

  /** `unindent` as written. */
  function UnindentAsWritten(content: string): string {
    var m := LeadingIndent(content);
    if m.None? then content else Replace(AsWrittenPattern(m.value), content)
  }

  /** `unindent` as meant: the captured text, star included, is taken off every line start. */
  function Unindent(content: string): string {
    var m := LeadingIndent(content);
    if m.None? then content else Replace(Literal(Captured(m.value)), content)
  }

  /** Without a captured star the two agree. */
  lemma UnindentAgrees(content: string)
    requires LeadingIndent(content).None? || !LeadingIndent(content).value.starred
    ensures UnindentAsWritten(content) == Unindent(content)
  {
    var m := LeadingIndent(content);
    if m.Some? {
      assert Captured(m.value) == m.value.space;
    }
  }

  /**
   * On lines whose first line is not all white space (or is the only line), the capture
   * comes from the first line.
   */
  lemma JoinLeadingIndent(lines: seq<string>)
    requires |lines| >= 1
    requires |lines| == 1 || SpaceEnd(lines[0], 0) < |lines[0]|
    ensures LeadingIndent(Join(lines, "\n")) == LeadingIndent(lines[0])
  {
    var l := lines[0];
    var s := Join(lines, "\n");
    if |lines| == 1 {
      assert s == l;
    } else {
      var r := "\n" + Join(lines[1..], "\n");
      assert s == l + r;
      SpaceEndPrefix(l, r, 0);
      var k := SpaceEnd(l, 0);
      assert s[..k] == l[..k] && s[k] == l[k];
    }
  }

  /**
   * On lines without line terminators whose first line is not all white space (or is the only
   * line), the capture comes from the first line, and unindenting takes it off the start of
   * every line — as meant, the capture itself; as written, the white space before a captured
   * star with any run of the character before the star.
   */
  lemma UnindentLines(lines: seq<string>)
    requires |lines| >= 1
    requires forall i :: 0 <= i < |lines| ==> NoTerminator(lines[i])
    requires |lines| == 1 || SpaceEnd(lines[0], 0) < |lines[0]|
    ensures LeadingIndent(Join(lines, "\n")) == LeadingIndent(lines[0])
    ensures LeadingIndent(lines[0]).Some? ==>
      Unindent(Join(lines, "\n")) == Join(StripAll(Literal(Captured(LeadingIndent(lines[0]).value)), lines), "\n") &&
      UnindentAsWritten(Join(lines, "\n")) == Join(StripAll(AsWrittenPattern(LeadingIndent(lines[0]).value), lines), "\n")
  {
    JoinLeadingIndent(lines);
    var l := lines[0];
    var m := LeadingIndent(l);
    if m.Some? {
      var ind := m.value;
      var w := Captured(ind);
      assert NoTerminator(w) by {
        forall k | 0 <= k < |w|
          ensures !IsLineTerminator(w[k])
        {
          assert w[k] == l[k];
        }
      }
      assert Unindent(Join(lines, "\n")) == Join(StripAll(Literal(w), lines), "\n") by {
        GmLines(Literal(w), lines);
      }
      var n := |ind.space|;
      assert NoTerminator(ind.space[..n - 1]) && !IsLineTerminator(ind.space[n - 1]) by {
        forall k | 0 <= k < n
          ensures !IsLineTerminator(ind.space[k])
        {
          assert ind.space[k] == w[k];
        }
      }
      assert UnindentAsWritten(Join(lines, "\n")) == Join(StripAll(AsWrittenPattern(ind), lines), "\n") by {
        GmLines(AsWrittenPattern(ind), lines);
      }
    }
  }

  /** Two lines joined by a line feed lose the pattern at their starts alone. */
  lemma TwoLines(pat: Pattern, a: string, b: string)
    requires NoTerminator(a) && NoTerminator(b)
    requires LineLocal(pat, a, false) && LineLocal(pat, b, true)
    ensures Replace(pat, a + "\n" + b) == Strip(pat, a) + "\n" + Strip(pat, b)
  {
    var lines := [a, b];
    GmLines(pat, lines);
    assert lines[1..] == [b];
    assert Join(lines, "\n") == a + "\n" + b;
    var stripped := StripAll(pat, lines);
    assert stripped[1..] == [Strip(pat, b)];
    assert Join(stripped, "\n") == Strip(pat, a) + "\n" + Strip(pat, b);
  }

  /** The comment of the example below: its first line start loses ` *`, the second none. */
  lemma StarredExampleStrip()
    ensures Replace(StarPrefix, " * *a\n  b") == " *a\n  b"
  {
    assert " * *a\n  b" == " * *a" + "\n" + "  b";
    assert SpaceEnd(" * *a", 1) == 1;
    assert SpaceEnd("  b", 2) == 2;
    TwoLines(StarPrefix, " * *a", "  b");
    assert " * *a"[2..] == " *a";
    assert " *a\n  b" == " *a" + "\n" + "  b";
  }

  /** The capture of the example's text is ` *`. */
  lemma StarredExampleIndent()
    ensures LeadingIndent(" *a\n  b") == Some(Indent(" ", true))
    ensures AsWrittenPattern(Indent(" ", true)) == LiteralThenRun("", ' ')
    ensures Captured(Indent(" ", true)) == " *"
  {
    var t := " *a\n  b";
    assert SpaceEnd(t, 1) == 1;
    assert t[..1] == " " && t[1] == '*';
  }

  /** As written, `^ *` takes the space before the star off the example's first line. */
  lemma AsWrittenFirstLine()
    ensures Strip(LiteralThenRun("", ' '), " *a") == "*a"
  {
    var t := " *a";
    assert t[..0] == "";
    assert RunEnd(t, 1, ' ') == 1;
    assert t[1..] == "*a";
  }

  /** As written, `^ *` takes both spaces off the example's second line. */
  lemma AsWrittenSecondLine()
    ensures Strip(LiteralThenRun("", ' '), "  b") == "b"
  {
    var t := "  b";
    assert t[..0] == "";
    assert RunEnd(t, 2, ' ') == 2;
    assert t[2..] == "b";
  }

  /**
   * On two lines, each form of `unindent` takes its pattern off each line start on its own
   * (when the capture holds no line break).
   */
  lemma UnindentTwoLines(a: string, b: string, ind: Indent)
    requires NoTerminator(a) && NoTerminator(b) && NoTerminator(ind.space)
    requires LeadingIndent(a + "\n" + b) == Some(ind)
    ensures UnindentAsWritten(a + "\n" + b) ==
      Strip(AsWrittenPattern(ind), a) + "\n" + Strip(AsWrittenPattern(ind), b)
    ensures Unindent(a + "\n" + b) ==
      Strip(Literal(Captured(ind)), a) + "\n" + Strip(Literal(Captured(ind)), b)
  {
    assert ind.space != [] by {
      assert LeadingIndent(a + "\n" + b).Some?;
    }
    var n := |ind.space|;
    assert NoTerminator(ind.space[..n - 1]) by {
      assert forall k :: 0 <= k < n - 1 ==> ind.space[..n - 1][k] == ind.space[k];
    }
    TwoLines(AsWrittenPattern(ind), a, b);
    var w := Captured(ind);
    assert NoTerminator(w) by {
      assert forall k :: 0 <= k < n ==> w[k] == ind.space[k];
    }
    TwoLines(Literal(w), a, b);
  }

  /** The two lines of the example and of its results; none holds a line break, nor does its capture. */
  lemma ExampleLines()
    ensures " *a\n  b" == " *a" + "\n" + "  b"
    ensures "*a\nb" == "*a" + "\n" + "b" && "a\n  b" == "a" + "\n" + "  b"
    ensures NoTerminator(" *a") && NoTerminator("  b") && NoTerminator(" ")
  {
  }

  /** As written, `^ *` takes the runs of spaces off the line starts and leaves the star. */
  lemma StarredExampleAsWritten()
    ensures UnindentAsWritten(" *a\n  b") == "*a\nb"
  {
    ExampleLines();
    StarredExampleIndent();
    UnindentTwoLines(" *a", "  b", Indent(" ", true));
    AsWrittenFirstLine();
    AsWrittenSecondLine();
  }

  /** As meant, the captured ` *` is taken off the example's first line. */
  lemma MeantFirstLine()
    ensures Strip(Literal(" *"), " *a") == "a"
  {
    var t := " *a";
    assert t[..2] == " *" && t[2..] == "a";
  }

  /** As meant, the example's second line does not start with ` *` and is kept. */
  lemma MeantSecondLine()
    ensures Strip(Literal(" *"), "  b") == "  b"
  {
    assert "  b"[..2][1] != " *"[1];
  }

  /** As meant, ` *` is taken off the first line, and the second line does not start with it. */
  lemma StarredExampleMeant()
    ensures Unindent(" *a\n  b") == "a\n  b"
  {
    ExampleLines();
    StarredExampleIndent();
    UnindentTwoLines(" *a", "  b", Indent(" ", true));
    MeantFirstLine();
    MeantSecondLine();
  }

  /** A captured star makes the as-written expression miss the star and eat the indentation. */
  lemma StarredIndentExample()
    ensures PrepareAsWritten(" * *a\n  b") == "*a\nb"
    ensures Prepare(" * *a\n  b") == "a\n  b"
  {
    StarredExampleStrip();
    StarredExampleAsWritten();
    StarredExampleMeant();
  }

  /** `^\s*\*` reaches over a blank line, taking the line feed with it. */
  lemma StarCrossesBlankLine()
    ensures Replace(StarPrefix, "\n*a") == "a"
    ensures Join(StripAll(StarPrefix, ["", "*a"]), "\n") == "\na"
  {
    var s := "\n*a";
    assert SpaceEnd(s, 0) == 1;
    assert s[2..] == "a";
    assert Gm(StarPrefix, s, true) == Gm(StarPrefix, "a", false);
    assert "a"[1..] == "";
    var stripped := StripAll(StarPrefix, ["", "*a"]);
    assert StarLen("").None?;
    assert SpaceEnd("*a", 0) == 0;
    assert stripped == ["", "a"];
    assert Join(stripped, "\n") == "" + "\n" + Join(["a"], "\n");
  }

  // ---------------------------------------------------------------------------------------
  // parse.comment

  /**
   * The text as meant for the parser: every line start loses `\s*\*`, then the text is
   * unindented by the captured indent taken literally.
   */
  function Prepare(comment: string): string {
    Unindent(Replace(StarPrefix, comment))
  }

  /** The text `parse.comment` as written hands to the parser, the captured indent read as a pattern. */
  function PrepareAsWritten(comment: string): string {
    UnindentAsWritten(Replace(StarPrefix, comment))
  }

  /** When the captured indent has no star, the parser gets the text as meant. */
  lemma PreparedAsMeant(comment: string)
    requires var c := Replace(StarPrefix, comment); LeadingIndent(c).None? || !LeadingIndent(c).value.starred
    ensures PrepareAsWritten(comment) == Prepare(comment)
  {
    UnindentAgrees(Replace(StarPrefix, comment));
  }

  /** What `parse.comment` returns: the parser's tree, or `{error: err}` for a caught failure. */
  datatype Parsed<T> = Doc(doc: T) | Failed(error: Error)

  /**
   * `parse.comment(comment, options, catchErr)`. The parser, `doctrine.parse` with the given
   * options, is the parameter `parse`; its failure is an `Err`. With `catchErr` the failure is
   * returned as a value, otherwise it is raised.
   */
  function ParseComment<T>(comment: string, parse: string -> Result<T>, catchErr: bool): (r: Result<Parsed<T>>)
    ensures r.Err? <==> !catchErr && parse(PrepareAsWritten(comment)).Err?
    ensures r.Err? ==> r.error == parse(PrepareAsWritten(comment)).error
    ensures r.Ok? && r.value.Doc? ==> parse(PrepareAsWritten(comment)) == Ok(r.value.doc)
    ensures r.Ok? && r.value.Failed? ==> catchErr && parse(PrepareAsWritten(comment)) == Err(r.value.error)
  {
    var out := parse(PrepareAsWritten(comment));
    if out.Ok? then Ok(Doc(out.value))
    else if catchErr then Ok(Failed(out.error))
    else Err(out.error)
  }

  // ---------------------------------------------------------------------------------------
  // parse.comments

  /** One element of the array `parse.comments` returns: the opener's line and the parse. */
  datatype Record<T> = Record(lineNumber: nat, parsed: Parsed<T>)

  /** The parse of one block: its lines joined by line feeds. */
  function BlockParse<T>(b: Block, parse: string -> Result<T>, catchErr: bool): Result<Parsed<T>> {
    ParseComment(Join(b.body, "\n"), parse, catchErr)
  }

  /** The records of the given blocks, in order; the first raised failure ends the scan. */
  function RecordsOf<T>(blocks: seq<Block>, parse: string -> Result<T>, catchErr: bool): Result<seq<Record<T>>> {
    if blocks == [] then Ok([])
    else
      var b := blocks[|blocks| - 1];
      var init := RecordsOf(blocks[..|blocks| - 1], parse, catchErr);
      if init.Err? then init
      else
        var p := BlockParse(b, parse, catchErr);
        if p.Err? then Err(p.error) else Ok(init.value + [Record(b.line, p.value)])
  }

  /** A failure in a prefix of the blocks is the failure of all of them. */
  lemma {:induction false} RecordsPrefixErr<T>(blocks: seq<Block>, parse: string -> Result<T>, catchErr: bool, n: nat)
    requires n <= |blocks| && RecordsOf(blocks[..n], parse, catchErr).Err?
    ensures RecordsOf(blocks, parse, catchErr) == RecordsOf(blocks[..n], parse, catchErr)
    decreases |blocks|
  {
    if n < |blocks| {
      var init := blocks[..|blocks| - 1];
      assert init[..n] == blocks[..n];
      RecordsPrefixErr(init, parse, catchErr, n);
    } else {
      assert blocks[..n] == blocks;
    }
  }

  /** One more block: its record is appended, or its failure, or an earlier one, is the result. */
  lemma RecordsSnoc<T>(blocks: seq<Block>, parse: string -> Result<T>, catchErr: bool, k: nat)
    requires k < |blocks|
    ensures RecordsOf(blocks[..k], parse, catchErr).Ok? ==>
      var p := BlockParse(blocks[k], parse, catchErr);
      RecordsOf(blocks[..k + 1], parse, catchErr) ==
        (if p.Err? then Err(p.error)
         else Ok(RecordsOf(blocks[..k], parse, catchErr).value + [Record(blocks[k].line, p.value)]))
  {
    assert blocks[..k + 1][..k] == blocks[..k] && blocks[..k + 1][k] == blocks[k];
  }

  /**
   * `parse.comments(code, options, catchErr)`: the scan of `parseComments`, pushing for every
   * block `$.extend({lineNumber: linenum}, parse.comment(...))`; a failure the parse raises
   * leaves the loop and the call.
   */
  method ParseComments<T>(code: string, parse: string -> Result<T>, catchErr: bool) returns (r: Result<seq<Record<T>>>)
    ensures r == RecordsOf(Blocks(SplitLines(code)), parse, catchErr)
  {
    var blocks := Scan(SplitLines(code));
    var comments: seq<Record<T>> := [];
    var k := 0;
    while k < |blocks|
      invariant 0 <= k <= |blocks|
      invariant RecordsOf(blocks[..k], parse, catchErr) == Ok(comments)
    {
      var b := blocks[k];
      var parsed := BlockParse(b, parse, catchErr);
      RecordsSnoc(blocks, parse, catchErr, k);
      if parsed.Err? {
        assert RecordsOf(blocks, parse, catchErr) == Err(parsed.error) by {
          RecordsPrefixErr(blocks, parse, catchErr, k + 1);
        }
        return Err(parsed.error);
      }
      comments := comments + [Record(b.line, parsed.value)];
      k := k + 1;
    }
    assert blocks[..k] == blocks;
    return Ok(comments);
  }

  /**
   * The scan succeeds exactly when every block parses without a raised failure; it then holds
   * one record per block, in order, each with the block's line and the block's parse.
   */
  lemma {:induction false} RecordsMeaning<T>(blocks: seq<Block>, parse: string -> Result<T>, catchErr: bool)
    ensures RecordsOf(blocks, parse, catchErr).Ok? <==>
      forall k :: 0 <= k < |blocks| ==> BlockParse(blocks[k], parse, catchErr).Ok?
    ensures RecordsOf(blocks, parse, catchErr).Ok? ==>
      var rs := RecordsOf(blocks, parse, catchErr).value;
      |rs| == |blocks| &&
      forall k :: 0 <= k < |blocks| ==> rs[k] == Record(blocks[k].line, BlockParse(blocks[k], parse, catchErr).value)
    decreases |blocks|
  {
    if blocks != [] {
      var n := |blocks| - 1;
      var init := blocks[..n];
      RecordsMeaning(init, parse, catchErr);
      assert forall k :: 0 <= k < n ==> init[k] == blocks[k];
      if RecordsOf(blocks, parse, catchErr).Ok? {
        var rs := RecordsOf(blocks, parse, catchErr).value;
        var ri := RecordsOf(init, parse, catchErr).value;
        assert rs == ri + [Record(blocks[n].line, BlockParse(blocks[n], parse, catchErr).value)];
        forall k | 0 <= k < |blocks|
          ensures rs[k] == Record(blocks[k].line, BlockParse(blocks[k], parse, catchErr).value)
        {
          if k < n {
            assert rs[k] == ri[k];
          }
        }
      }
    }
  }

  /**
   * The failure raised is the first block's that raises one: every block before it parsed,
   * and nothing after it is parsed.
   */
  lemma {:induction false} RecordsFirstError<T>(blocks: seq<Block>, parse: string -> Result<T>, catchErr: bool, k: nat)
    requires k < |blocks| && BlockParse(blocks[k], parse, catchErr).Err?
    requires forall j :: 0 <= j < k ==> BlockParse(blocks[j], parse, catchErr).Ok?
    ensures RecordsOf(blocks, parse, catchErr) == Err(BlockParse(blocks[k], parse, catchErr).error)
  {
    var pre := blocks[..k + 1];
    RecordsMeaning(blocks[..k], parse, catchErr);
    assert pre[..k] == blocks[..k] && pre[k] == blocks[k];
    assert forall j :: 0 <= j < k ==> blocks[..k][j] == blocks[j];
    RecordsPrefixErr(blocks, parse, catchErr, k + 1);
  }

  /**
   * With `catchErr` nothing is raised: there is one record per block, in order, each numbered
   * by the 1-based line of the block's opener.
   */
  lemma CaughtRecords<T>(code: string, parse: string -> Result<T>)
    ensures var bs := Blocks(SplitLines(code));
      var r := RecordsOf(bs, parse, true);
      r.Ok? && |r.value| == |bs| &&
      forall k :: 0 <= k < |bs| ==> r.value[k].lineNumber == bs[k].line
  {
    RecordsMeaning(Blocks(SplitLines(code)), parse, true);
  }
}
