/**
 * jquery.yuidoc.js: a YUIDoc-style comment parser. `parseComments` finds the doc comments of
 * a source text, `parseComment` turns one comment into `{tag, value}` entries, and
 * `processComment` folds those entries into a dictionary keyed by tag.
 */
module YuiDoc {
  import opened JsText
  import opened Multiline
  import opened DocBlocks

  /** A value an entry carries: comment text, or the number of the comment's first line. */
  datatype TagValue = Text(text: string) | LineNo(n: nat)

  /** One `{tag, value}` record. */
  datatype Entry = Entry(tag: string, value: TagValue)

  // ---------------------------------------------------------------------------------------
  // unindent

  /** `content.match(/^(\s+)/)`: the white space the content starts with. */
  function Indent(content: string): (w: string)
    ensures |w| <= |content| && w == content[..|w|]
    ensures forall k :: 0 <= k < |w| ==> IsSpace(w[k])
    ensures |w| < |content| ==> !IsSpace(content[|w|])
  {
    content[..SpaceEnd(content, 0)]
  }

  /**
   * `unindent`: remove the content's leading white space from the start of every line. The
   * white space goes into `new RegExp('^' + indent, 'gm')`, where it stands for itself.
   */
  function Unindent(content: string): string {
    var w := Indent(content);
    if w == "" then content else Replace(Literal(w), content)
  }

  /**
   * On lines without line terminators, whose first line is not all white space (or is the
   * only line), unindenting takes the first line's indentation off every line that starts
   * with it, and leaves the other lines alone.
   */
  lemma UnindentLines(lines: seq<string>)
    requires |lines| >= 1
    requires forall i :: 0 <= i < |lines| ==> NoTerminator(lines[i])
    requires |lines| == 1 || SpaceEnd(lines[0], 0) < |lines[0]|
    ensures Indent(Join(lines, "\n")) == Indent(lines[0])
    ensures Indent(lines[0]) == "" ==> Unindent(Join(lines, "\n")) == Join(lines, "\n")
    ensures Indent(lines[0]) != "" ==>
      Unindent(Join(lines, "\n")) == Join(StripAll(Literal(Indent(lines[0])), lines), "\n")
  {
    var l := lines[0];
    var s := Join(lines, "\n");
    if |lines| == 1 {
      assert s == l;
    } else {
      var r := "\n" + Join(lines[1..], "\n");
      assert s == l + r;
      SpaceEndPrefix(l, r, 0);
      assert s[..SpaceEnd(l, 0)] == l[..SpaceEnd(l, 0)];
    }
    var w := Indent(l);
    if w != "" {
      assert NoTerminator(w) by {
        forall k | 0 <= k < |w|
          ensures !IsLineTerminator(w[k])
        {
          assert w[k] == l[k];
        }
      }
      GmLines(Literal(w), lines);
    }
  }

  // ---------------------------------------------------------------------------------------
  // The tag split: `comment.split(/(?:^|\n)\s*(@\w*)/)`

  /** The expression matches at `q`: at the start or at a line feed, after white space, an `@`. */
  predicate TagAt(s: string, q: nat)
    requires q <= |s|
  {
    q < |s| && (q == 0 || s[q] == '\n') && SpaceEnd(s, q) < |s| && s[SpaceEnd(s, q)] == '@'
  }

  /** The end of the match at `q`: past the `@` and the word characters after it. */
  function TagEnd(s: string, q: nat): (e: nat)
    requires q <= |s| && TagAt(s, q)
    ensures SpaceEnd(s, q) < e <= |s|
  {
    WordEnd(s, SpaceEnd(s, q) + 1)
  }

  /**
   * The split from `q` on, the current piece having started at `p`: each match closes the
   * piece and contributes its capture `@word`; the search goes on after the match.
   */
  function TagSplitFrom(s: string, p: nat, q: nat): seq<string>
    requires p <= q <= |s|
    decreases |s| - q
  {
    if q == |s| then [s[p..]]
    else if TagAt(s, q) then
      var e := TagEnd(s, q);
      [s[p..q], s[SpaceEnd(s, q)..e]] + TagSplitFrom(s, e, e)
    else TagSplitFrom(s, p, q + 1)
  }

  /** A captured tag: an `@` and word characters. */
  predicate IsTag(t: string) {
    |t| >= 1 && t[0] == '@' && forall k :: 1 <= k < |t| ==> IsWordChar(t[k])
  }

  /** Tags at the even places, each followed by the text up to the next tag. */
  predicate Paired(rest: seq<string>)
    decreases |rest|
  {
    rest == [] || (|rest| >= 2 && IsTag(rest[0]) && Paired(rest[2..]))
  }

  /**
   * The shape of a split: a first piece that does not start with `@`, then tags, each with
   * the text after it.
   */
  predicate TagShaped(parts: seq<string>) {
    |parts| >= 1 && Paired(parts[1..]) && (parts[0] == "" || parts[0][0] != '@')
  }

  lemma {:induction false} TagSplitShape(s: string, p: nat, q: nat)
    requires p <= q <= |s|
    ensures var r := TagSplitFrom(s, p, q);
      |r| >= 1 && Paired(r[1..]) &&
      |r[0]| <= |s| - p && r[0] == s[p..p + |r[0]|] && p + |r[0]| >= q
    decreases |s| - q
  {
    if q < |s| {
      if TagAt(s, q) {
        var e := TagEnd(s, q);
        var k := SpaceEnd(s, q);
        TagSplitShape(s, e, e);
        var tail := TagSplitFrom(s, e, e);
        var r := [s[p..q], s[k..e]] + tail;
        assert TagSplitFrom(s, p, q) == r;
        assert r[1..][2..] == tail[1..];
        assert IsTag(s[k..e]);
      } else {
        TagSplitShape(s, p, q + 1);
      }
    } else {
      assert s[p..] == s[p..p + |s[p..]|];
    }
  }

  /** `String.prototype.split` with the tag expression. */
  function TagSplit(s: string): (r: seq<string>)
    ensures TagShaped(r)
  {
    TagSplitShape(s, 0, 0);
    var r := TagSplitFrom(s, 0, 0);
    assert r[0] != "" ==> r[0][0] == s[0];
    assert s != [] && s[0] == '@' ==> TagAt(s, 0);
    assert TagAt(s, 0) ==> r[0] == "";
    r
  }

  // ---------------------------------------------------------------------------------------
  // parseComment

  /** The text, after every line loses `^\s*\*`, is joined again and unindented. */
  function Prepared(comment: string): string {
    Unindent(Join(StripAll(StarPrefix, SplitLines(comment)), "\n"))
  }

  /** The entries the tags make: each tag with the text after it. */
  function TagEntries(rest: seq<string>): seq<Entry>
    requires Paired(rest)
    decreases |rest|
  {
    if rest == [] then []
    else [Entry(LowerAscii(rest[0][1..]), Text(rest[1]))] + TagEntries(rest[2..])
  }

  /** Entry `k` belongs to the tag at place `2 * k`, and holds the text after it. */
  lemma {:induction false} TagEntriesIndex(rest: seq<string>)
    requires Paired(rest)
    ensures 2 * |TagEntries(rest)| == |rest|
    ensures forall k :: 0 <= k < |TagEntries(rest)| ==>
      IsTag(rest[2 * k]) && TagEntries(rest)[k] == Entry(LowerAscii(rest[2 * k][1..]), Text(rest[2 * k + 1]))
    decreases |rest|
  {
    if rest != [] {
      var tail := rest[2..];
      TagEntriesIndex(tail);
      var te := TagEntries(rest);
      assert te == [Entry(LowerAscii(rest[0][1..]), Text(rest[1]))] + TagEntries(tail);
      forall k | 0 <= k < |te|
        ensures IsTag(rest[2 * k]) && te[k] == Entry(LowerAscii(rest[2 * k][1..]), Text(rest[2 * k + 1]))
      {
        if k > 0 {
          assert te[k] == TagEntries(tail)[k - 1];
          assert rest[2 * k] == tail[2 * (k - 1)] && rest[2 * k + 1] == tail[2 * (k - 1) + 1];
        }
      }
    }
  }

  /** The tag a description is given before the `@` is cut off and the rest lower-cased. */
  const DescriptionTag := "@description"

  /** A non-empty first piece is the description; every tag follows with its text. */
  function Tokens(parts: seq<string>): seq<Entry>
    requires TagShaped(parts)
  {
    (if parts[0] != "" then [Entry(LowerAscii(DescriptionTag[1..]), Text(parts[0]))] else []) + TagEntries(parts[1..])
  }

  /** The description entry is tagged `description`. */
  lemma DescriptionName()
    ensures LowerAscii(DescriptionTag[1..]) == "description"
  {
    LowerAsciiKeeps(DescriptionTag[1..]);
  }

  /** The entries `parseComment(comment, file, line)` returns. */
  function Entries(comment: string, file: string, line: nat): seq<Entry> {
    [Entry("file", Text(file)), Entry("line", LineNo(line))] + Tokens(TagSplit(Prepared(comment)))
  }

  /** Every comment's entries start with its file and its line. */
  lemma EntriesHead(comment: string, file: string, line: nat)
    ensures |Entries(comment, file, line)| >= 2
    ensures Entries(comment, file, line)[0] == Entry("file", Text(file))
    ensures Entries(comment, file, line)[1] == Entry("line", LineNo(line))
  {
  }

  /** Lower-casing text that has no upper-case letter changes nothing. */
  lemma LowerAsciiKeeps(s: string)
    requires forall k :: 0 <= k < |s| ==> !('A' <= s[k] <= 'Z')
    ensures LowerAscii(s) == s
  {
    LowerAsciiAt(s);
  }

  /** The first loop of `parseComment`: every line loses its leading `\s*\*`, in place. */
  method StripLines(original: seq<string>) returns (lines: seq<string>)
    ensures lines == StripAll(StarPrefix, original)
  {
    lines := original;
    var i := 0;
    while i < |lines|
      invariant 0 <= i <= |lines| == |original|
      invariant forall k :: 0 <= k < i ==> lines[k] == Strip(StarPrefix, original[k])
      invariant forall k :: i <= k < |lines| ==> lines[k] == original[k]
    {
      lines := lines[i := Strip(StarPrefix, lines[i])];
      i := i + 1;
    }
  }

  /** Taking the tag at place `j` and its text leaves the tags from `j + 2` on. */
  lemma TagEntriesStep(parts: seq<string>, j: nat)
    requires 1 <= j < |parts| && Paired(parts[j..])
    ensures |parts| >= j + 2 && IsTag(parts[j]) && Paired(parts[j + 2..])
    ensures TagEntries(parts[j..]) ==
      [Entry(LowerAscii(parts[j][1..]), Text(parts[j + 1]))] + TagEntries(parts[j + 2..])
  {
    assert parts[j..][2..] == parts[j + 2..];
  }

  /**
   * The second loop of `parseComment`: it walks the pieces of the split, skipping empty ones,
   * taking a first piece that is not a tag as the description and moving the index past the
   * text of each tag it takes as the tag's value.
   */
  method CollectTags(parts: seq<string>, prelude: seq<Entry>) returns (results: seq<Entry>)
    requires TagShaped(parts)
    ensures results == prelude + Tokens(parts)
  {
    ghost var all := prelude + Tokens(parts);
    results := prelude;
    var tag := "";
    var i := 0;
    ghost var j := 1;
    while i < |parts|
      invariant 0 <= i <= |parts| && 1 <= j <= |parts| && Paired(parts[j..])
      invariant i == 0 ==> results == prelude && j == 1
      invariant i > 0 ==> i <= j <= i + 1 && (j == i + 1 ==> parts[i] == "")
      invariant i > 0 ==> results + TagEntries(parts[j..]) == all
      decreases |parts| - i
    {
      var value := "";
      var part := parts[i];
      if part != "" {
        var skip := false;
        if i == 0 && part[0] != '@' {
          tag := DescriptionTag;
          value := part;
          assert (prelude + [Entry(LowerAscii(tag[1..]), Text(part))]) + TagEntries(parts[1..]) == all;
        } else {
          assert i == j;
          TagEntriesStep(parts, j);
          tag := part;
          if i + 1 < |parts| && parts[i + 1] != "" {
            value := parts[i + 1];
            i := i + 1;
          }
          assert value == parts[j + 1];
          j := j + 2;
          AppendAssoc(results, [Entry(LowerAscii(tag[1..]), Text(value))], TagEntries(parts[j..]));
        }
        if !skip && tag != "" {
          results := results + [Entry(LowerAscii(tag[1..]), Text(value))];
        }
      } else if i == 0 {
        assert parts[1..] == parts[j..];
      }
      i := i + 1;
    }
    assert j == |parts|;
  }

  /**
   * `parseComment(comment, file, line)`: the lines lose their leading `\s*\*`, the text is
   * joined again, unindented and split at the tags, and the pieces become entries after
   * `file` and `line`.
   */
  method ParseComment(comment: string, file: string, line: nat) returns (results: seq<Entry>)
    ensures results == Entries(comment, file, line)
  {
    var lines := StripLines(SplitLines(comment));
    var content := Unindent(Join(lines, "\n"));
    var parts := TagSplit(content);
    results := CollectTags(parts, [Entry("file", Text(file)), Entry("line", LineNo(line))]);
  }

  /**
   * What the entries after `file` and `line` are: the description when the text before the
   * first tag is not empty, then one entry per tag, named by the tag without its `@` in lower
   * case, holding the text up to the next tag (empty when there is none).
   */
  lemma TokensMeaning(parts: seq<string>)
    requires TagShaped(parts)
    ensures var d := if parts[0] != "" then 1 else 0;
      var ts := Tokens(parts);
      2 * (|ts| - d) + 1 == |parts| &&
      (parts[0] != "" ==> ts[0] == Entry("description", Text(parts[0]))) &&
      (forall k :: 0 <= k < |ts| - d ==>
        IsTag(parts[2 * k + 1]) && ts[d + k] == Entry(LowerAscii(parts[2 * k + 1][1..]), Text(parts[2 * k + 2])))
  {
    var d := if parts[0] != "" then 1 else 0;
    var rest := parts[1..];
    var te := TagEntries(rest);
    TagEntriesIndex(rest);
    DescriptionName();
    var ts := Tokens(parts);
    assert ts == (if d == 1 then [Entry("description", Text(parts[0]))] else []) + te;
    forall k | 0 <= k < |te|
      ensures ts[d + k] == te[k] && parts[2 * k + 1] == rest[2 * k] && parts[2 * k + 2] == rest[2 * k + 1]
    {
    }
  }

  /** A word with no upper-case letter. */
  predicate LowerWord(t: string) {
    forall c :: 0 <= c < |t| ==> IsWordChar(t[c]) && !('A' <= t[c] <= 'Z')
  }

  /** Every tag entry is named by a lower-case word. */
  lemma {:induction false} TagEntriesLower(rest: seq<string>)
    requires Paired(rest)
    ensures forall e :: e in TagEntries(rest) ==> LowerWord(e.tag)
    decreases |rest|
  {
    if rest != [] {
      TagEntriesLower(rest[2..]);
      var t := rest[0][1..];
      LowerAsciiAt(t);
      assert forall c :: 0 <= c < |t| ==> IsWordChar(t[c]) by {
        forall c | 0 <= c < |t| ensures IsWordChar(t[c]) {
          assert t[c] == rest[0][c + 1];
        }
      }
      assert LowerWord(LowerAscii(t));
    }
  }

  /** The description is tagged `description`, every other entry by a lower-case word. */
  lemma TokenTagsLower(parts: seq<string>)
    requires TagShaped(parts)
    ensures forall e :: e in Tokens(parts) ==> e.tag == "description" || LowerWord(e.tag)
  {
    TagEntriesLower(parts[1..]);
    DescriptionName();
  }

  // ---------------------------------------------------------------------------------------
  // parseComments

  /** `f` of each block, in order. */
  function MapBlocks<U>(blocks: seq<Block>, f: Block -> U): (r: seq<U>)
    ensures |r| == |blocks|
    ensures forall k :: 0 <= k < |blocks| ==> r[k] == f(blocks[k])
  {
    seq(|blocks|, k requires 0 <= k < |blocks| => f(blocks[k]))
  }

  /** One more block adds its image at the end. */
  lemma MapBlocksSnoc<U>(blocks: seq<Block>, f: Block -> U, k: nat)
    requires k < |blocks|
    ensures MapBlocks(blocks[..k + 1], f) == MapBlocks(blocks[..k], f) + [f(blocks[k])]
  {
    var a, b := MapBlocks(blocks[..k + 1], f), MapBlocks(blocks[..k], f);
    forall j | 0 <= j < k
      ensures a[j] == b[j]
    {
      assert blocks[..k + 1][j] == blocks[..k][j];
    }
  }

  /** The entry list of one comment block: its lines joined by line feeds, and its line. */
  function CommentOf(file: string): Block -> seq<Entry> {
    (b: Block) => Entries(Join(b.body, "\n"), file, b.line)
  }

  /** The entry lists of the given comment blocks, in order. */
  function CommentsOf(blocks: seq<Block>, file: string): (r: seq<seq<Entry>>)
    ensures |r| == |blocks|
    ensures forall k :: 0 <= k < |blocks| ==> r[k] == Entries(Join(blocks[k].body, "\n"), file, blocks[k].line)
  {
    MapBlocks(blocks, CommentOf(file))
  }

  /**
   * `parseComments(code, file)`: one entry list per doc comment, parsed from the comment's
   * lines joined by line feeds and carrying the 1-based line of its opener.
   */
  method ParseComments(code: string, file: string) returns (comments: seq<seq<Entry>>)
    ensures comments == CommentsOf(Blocks(SplitLines(code)), file)
  {
    var blocks := Scan(SplitLines(code));
    comments := [];
    var k := 0;
    while k < |blocks|
      invariant 0 <= k <= |blocks|
      invariant comments == CommentsOf(blocks[..k], file)
    {
      var c := ParseComment(Join(blocks[k].body, "\n"), file, blocks[k].line);
      MapBlocksSnoc(blocks, CommentOf(file), k);
      comments := comments + [c];
      k := k + 1;
    }
    assert blocks[..k] == blocks;
  }

  // ---------------------------------------------------------------------------------------
  // processComment

  /** What the dictionary holds for a tag: one value, or several in order. */
  datatype Stored = Single(value: TagValue) | Several(values: seq<TagValue>)

  /** The values of the entries with tag `t`, in order. */
  function ValuesOf(entries: seq<Entry>, t: string): seq<TagValue> {
    if entries == [] then []
    else
      var last := entries[|entries| - 1];
      ValuesOf(entries[..|entries| - 1], t) + (if last.tag == t then [last.value] else [])
  }

  /** The tags of the entries. */
  function TagsOf(entries: seq<Entry>): set<string> {
    if entries == [] then {}
    else TagsOf(entries[..|entries| - 1]) + {entries[|entries| - 1].tag}
  }

  /** A tag is among the tags exactly when some entry has it. */
  lemma {:induction false} TagsOfMeaning(entries: seq<Entry>, t: string)
    ensures t in TagsOf(entries) <==> exists e :: e in entries && e.tag == t
  {
    if entries != [] {
      var init := entries[..|entries| - 1];
      var last := entries[|entries| - 1];
      TagsOfMeaning(init, t);
      assert entries == init + [last];
      if t in TagsOf(init) {
        var e :| e in init && e.tag == t;
        assert e in entries;
      }
    }
  }

  /**
   * Every tag of the entries, holding its one value, or all its values in order when it
   * occurs more than once.
   */
  function Collated(entries: seq<Entry>): map<string, Stored> {
    map t | t in TagsOf(entries) :: StoredOf(ValuesOf(entries, t))
  }

  /** One value as itself, several (or none) as the array of them. */
  function StoredOf(vs: seq<TagValue>): Stored {
    if |vs| == 1 then Single(vs[0]) else Several(vs)
  }

  /** A tag occurs among the entries exactly when it has values. */
  lemma {:induction false} ValuesOfTags(entries: seq<Entry>, t: string)
    ensures t in TagsOf(entries) <==> |ValuesOf(entries, t)| > 0
  {
    if entries != [] {
      var init := entries[..|entries| - 1];
      var last := entries[|entries| - 1];
      ValuesOfTags(init, t);
    }
  }

  /** One pass of the loop of `processComment`, storing every further value of a tag. */
  function Store(comment: map<string, Stored>, e: Entry): map<string, Stored> {
    if e.tag !in comment then comment[e.tag := Single(e.value)]
    else if comment[e.tag].Single? then comment[e.tag := Several([comment[e.tag].value, e.value])]
    else comment[e.tag := Several(comment[e.tag].values + [e.value])]
  }

  /** One more entry adds its tag to the tags. */
  lemma TagsSnoc(entries: seq<Entry>, e: Entry)
    ensures TagsOf(entries + [e]) == TagsOf(entries) + {e.tag}
    ensures e.tag in TagsOf(entries) <==> |ValuesOf(entries, e.tag)| > 0
  {
    ValuesOfTags(entries, e.tag);
  }

  /** One more entry adds its value to the values of its own tag and of no other. */
  lemma ValuesSnoc(entries: seq<Entry>, e: Entry, t: string)
    ensures ValuesOf(entries + [e], t) == ValuesOf(entries, t) + (if e.tag == t then [e.value] else [])
  {
    assert (entries + [e])[..|entries|] == entries;
  }

  /** Storing one more entry collates one more entry. */
  lemma CollatedSnoc(entries: seq<Entry>, e: Entry)
    ensures Collated(entries + [e]) == Store(Collated(entries), e)
  {
    var es := entries + [e];
    assert es[..|es| - 1] == entries;
    TagsSnoc(entries, e);
    var a := Collated(es);
    var b := Store(Collated(entries), e);
    assert a.Keys == b.Keys;
    forall t | t in a.Keys
      ensures a[t] == b[t]
    {
      ValuesSnoc(entries, e, t);
      if t == e.tag {
        var vs := ValuesOf(entries, t);
        if |vs| == 1 {
          assert vs + [e.value] == [vs[0], e.value];
        }
      }
    }
  }

  /**
   * `processComment` as the source means it: the first value of a tag is stored as it is,
   * later ones turn it into an array of all its values.
   */
  method ProcessComment(lines: seq<Entry>) returns (comment: map<string, Stored>)
    ensures comment == Collated(lines)
  {
    comment := map[];
    var i := 0;
    while i < |lines|
      invariant 0 <= i <= |lines|
      invariant comment == Collated(lines[..i])
    {
      var line := lines[i];
      assert lines[..i + 1] == lines[..i] + [line];
      CollatedSnoc(lines[..i], line);
      if line.tag !in comment {
        comment := comment[line.tag := Single(line.value)];
      } else if comment[line.tag].Single? {
        comment := comment[line.tag := Several([comment[line.tag].value, line.value])];
      } else {
        comment := comment[line.tag := Several(comment[line.tag].values + [line.value])];
      }
      i := i + 1;
    }
    assert lines[..i] == lines;
  }

  /** Every tag is kept, with every value it was given, in order. */
  lemma CollatedMeaning(entries: seq<Entry>)
    ensures forall t :: t in Collated(entries) <==> exists e :: e in entries && e.tag == t
    ensures forall t :: t in Collated(entries) ==>
      (if |ValuesOf(entries, t)| == 1 then Collated(entries)[t] == Single(ValuesOf(entries, t)[0])
       else Collated(entries)[t] == Several(ValuesOf(entries, t)) && |ValuesOf(entries, t)| > 1)
  {
    forall t
      ensures t in Collated(entries) <==> exists e :: e in entries && e.tag == t
    {
      TagsOfMeaning(entries, t);
    }
    forall t | t in Collated(entries)
      ensures |ValuesOf(entries, t)| > 0
    {
      ValuesOfTags(entries, t);
    }
  }

  /** The values of a tag are the values of its entries, in the order of the entries. */
  lemma {:induction false} ValuesOfMeaning(entries: seq<Entry>, t: string)
    ensures |ValuesOf(entries, t)| <= |entries|
    ensures forall v :: v in ValuesOf(entries, t) <==> Entry(t, v) in entries
  {
    if entries != [] {
      var init := entries[..|entries| - 1];
      ValuesOfMeaning(init, t);
      assert entries == init + [entries[|entries| - 1]];
    }
  }

  // processComment as written --------------------------------------------------------------

  /**
   * The members a plain object inherits from `Object.prototype` whose names a tag can take:
   * `comment.constructor` is a function and `comment.__proto__` an object, so `typeof` is
   * neither "undefined" nor "string" for them. The other inherited members (`toString`,
   * `hasOwnProperty`, `valueOf`, ...) have an upper-case letter in their names, and every
   * tag is lower case (`TokenTagsLower`), so no tag reaches them.
   */
  const Inherited: set<string> := {"constructor", "__proto__"}

  /**
   * One pass of the loop of `processComment` as written: `typeof` of the stored value picks
   * the case; a number (the `line` entry), an array (whose `typeof` is "object", never
   * "array") or an inherited member matches no case.
   */
  function StoreAsWritten(comment: map<string, Stored>, e: Entry): map<string, Stored> {
    if e.tag in Inherited then comment
    else if e.tag !in comment then comment[e.tag := Single(e.value)]
    else if comment[e.tag].Single? && comment[e.tag].value.Text? then
      comment[e.tag := Several([comment[e.tag].value, e.value])]
    else comment
  }

  /** The dictionary the loop as written builds from the entries. */
  function FoldAsWritten(entries: seq<Entry>): map<string, Stored> {
    if entries == [] then map[]
    else StoreAsWritten(FoldAsWritten(entries[..|entries| - 1]), entries[|entries| - 1])
  }

  /** `processComment` as written, with its `switch (typeof ...)` and fall-through. */
  method ProcessCommentAsWritten(lines: seq<Entry>) returns (comment: map<string, Stored>)
    ensures comment == FoldAsWritten(lines)
  {
    comment := map[];
    var i := 0;
    while i < |lines|
      invariant 0 <= i <= |lines|
      invariant comment == FoldAsWritten(lines[..i])
    {
      var line := lines[i];
      assert lines[..i + 1][..i] == lines[..i];
      if line.tag in Inherited {
        // typeof is "function" or "object": no case
      } else if line.tag !in comment {
        comment := comment[line.tag := Single(line.value)];
      } else if comment[line.tag].Single? && comment[line.tag].value.Text? {
        // "string": wrap in an array, then fall through to the push
        comment := comment[line.tag := Several([comment[line.tag].value, line.value])];
      }
      i := i + 1;
    }
    assert lines[..i] == lines;
  }

  /**
   * The loop as written agrees with the intended one on entries whose tags are not inherited
   * names, that occur at most twice, and whose first value is text when they occur twice.
   */
  lemma {:induction false} AsWrittenAgrees(entries: seq<Entry>)
    requires forall e :: e in entries ==> e.tag !in Inherited
    requires forall t :: |ValuesOf(entries, t)| <= 2
    requires forall t :: |ValuesOf(entries, t)| == 2 ==> ValuesOf(entries, t)[0].Text?
    ensures FoldAsWritten(entries) == Collated(entries)
  {
    if entries != [] {
      var init := entries[..|entries| - 1];
      var e := entries[|entries| - 1];
      assert entries == init + [e];
      forall t
        ensures |ValuesOf(init, t)| <= 2 && (|ValuesOf(init, t)| == 2 ==> ValuesOf(init, t)[0].Text?)
      {
        assert ValuesOf(entries, t) == ValuesOf(init, t) + (if e.tag == t then [e.value] else []);
        if |ValuesOf(init, t)| == 2 {
          assert ValuesOf(entries, t)[0] == ValuesOf(init, t)[0];
        }
      }
      AsWrittenAgrees(init);
      CollatedSnoc(init, e);
      ValuesOfTags(init, e.tag);
      var vs := ValuesOf(init, e.tag);
      assert ValuesOf(entries, e.tag) == vs + [e.value];
      if |vs| == 1 {
        assert ValuesOf(entries, e.tag)[0] == vs[0];
      }
    }
  }

  /** A `@constructor` tag, a standard YUIDoc tag, is lost as written and kept as intended. */
  lemma ConstructorDropped(v: TagValue)
    ensures FoldAsWritten([Entry("constructor", v)]) == map[]
    ensures Collated([Entry("constructor", v)]) == map["constructor" := Single(v)]
  {
    var es := [Entry("constructor", v)];
    assert es[..0] == [];
    CollatedSnoc([], Entry("constructor", v));
    assert [] + [Entry("constructor", v)] == es;
  }

  /** As written, a tag given three times keeps only its first two values. */
  lemma ThirdDropped(a: string, b: string, c: string)
    ensures FoldAsWritten([Entry("param", Text(a)), Entry("param", Text(b)), Entry("param", Text(c))]) ==
      map["param" := Several([Text(a), Text(b)])]
  {
    var e1 := Entry("param", Text(a));
    var e2 := Entry("param", Text(b));
    var e3 := Entry("param", Text(c));
    var es := [e1, e2, e3];
    var m1 := map["param" := Single(Text(a))];
    var m2 := map["param" := Several([Text(a), Text(b)])];
    assert es[..2] == [e1, e2] && [e1, e2][..1] == [e1] && [e1][..0] == [];
    assert FoldAsWritten([e1]) == m1;
    assert FoldAsWritten([e1, e2]) == StoreAsWritten(m1, e2) == m2;
    assert FoldAsWritten(es) == StoreAsWritten(m2, e3) == m2;
  }

  /** As intended, a tag given three times keeps all three values, in order. */
  lemma ThirdKept(a: string, b: string, c: string)
    ensures Collated([Entry("param", Text(a)), Entry("param", Text(b)), Entry("param", Text(c))]) ==
      map["param" := Several([Text(a), Text(b), Text(c)])]
  {
    var e1 := Entry("param", Text(a));
    var e2 := Entry("param", Text(b));
    var e3 := Entry("param", Text(c));
    var es := [e1, e2, e3];
    assert TagsOf(es) == {"param"} by {
      assert es[..2] == [e1, e2] && [e1, e2][..1] == [e1] && [e1][..0] == [];
      assert TagsOf([e1]) == {"param"};
      assert TagsOf([e1, e2]) == {"param"};
    }
    assert ValuesOf(es, "param") == [Text(a), Text(b), Text(c)] by {
      assert es[..2] == [e1, e2] && [e1, e2][..1] == [e1] && [e1][..0] == [];
      assert ValuesOf([e1], "param") == [Text(a)];
      assert ValuesOf([e1, e2], "param") == [Text(a), Text(b)];
    }
  }

  // ---------------------------------------------------------------------------------------
  // processComments

  /**
   * An element of the array `processComments` works on: the entries `parseComment` made, or
   * a dictionary an earlier call left there.
   */
  datatype Comment = Parsed(entries: seq<Entry>) | Processed(fields: map<string, Stored>)

  /**
   * `processComments`: every element is replaced in place by its dictionary. Processing a
   * dictionary again is taken to loop zero times and give an empty one, which is what the
   * source does for a dictionary without a `length` entry; one that a `@length` tag gave such
   * an entry bounds the loop by that value instead, and that case is not modelled.
   */
  method ProcessComments(comments: array<Comment>) returns (r: array<Comment>)
    modifies comments
    ensures r == comments
    ensures forall k :: 0 <= k < comments.Length ==>
      comments[k] == Processed(if old(comments[k]).Parsed? then FoldAsWritten(old(comments[k]).entries) else map[])
  {
    var i := 0;
    while i < comments.Length
      invariant 0 <= i <= comments.Length
      invariant forall k :: 0 <= k < i ==>
        comments[k] == Processed(if old(comments[k]).Parsed? then FoldAsWritten(old(comments[k]).entries) else map[])
      invariant forall k :: i <= k < comments.Length ==> comments[k] == old(comments[k])
    {
      var entries := if comments[i].Parsed? then comments[i].entries else [];
      var fields := ProcessCommentAsWritten(entries);
      comments[i] := Processed(fields);
      i := i + 1;
    }
    return comments;
  }

  /** Processing twice leaves only empty dictionaries (for dictionaries without a `length` entry). */
  lemma ProcessedTwice(c: Comment)
    ensures var once := Processed(if c.Parsed? then FoldAsWritten(c.entries) else map[]);
      Processed(if once.Parsed? then FoldAsWritten(once.entries) else map[]) == Processed(map[])
  {
  }
}
