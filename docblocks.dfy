/**
 * The doc-comment block scanner that `parseComments` runs in jquery.yuidoc.js and in
 * jquery.jsdoc.js (the two loops are the same): split the code into lines, start a block at
 * every line that opens one, collect the lines after it up to the first line that closes a
 * comment, and go on after that line.
 */
module DocBlocks {
  import opened JsText

  /** A line without the `\r` of a `\r\n` break. */
  function DropCR(s: string): string {
    if |s| > 0 && s[|s| - 1] == '\r' then s[..|s| - 1] else s
  }

  /**
   * `code.split(/\r\n|\n/)`: the pieces between `\n`s, a `\r` that precedes a `\n` being part
   * of the break (the earlier alternative `\r\n` wins at the `\r`).
   */
  function SplitLines(code: string): (r: seq<string>)
    ensures |r| == |Split(code, '\n')| >= 1
    ensures forall i :: 0 <= i < |r| ==> '\n' !in r[i]
    ensures '\r' !in code ==> r == Split(code, '\n')
  {
    var pieces := Split(code, '\n');
    SplitPiecesLackSeparator(code, '\n');
    SplitHasOnly(code, '\n');
    seq(|pieces|, i requires 0 <= i < |pieces| => if i < |pieces| - 1 then DropCR(pieces[i]) else pieces[i])
  }

  /** The characters of the pieces of a split are characters of the string. */
  lemma {:induction false} SplitHasOnly(s: string, c: char)
    ensures forall i, x :: 0 <= i < |Split(s, c)| && x in Split(s, c)[i] ==> x in s
  {
    if s != [] {
      SplitHasOnly(s[1..], c);
      var rest := Split(s[1..], c);
      assert s == [s[0]] + s[1..];
      forall i, x | 0 <= i < |Split(s, c)| && x in Split(s, c)[i]
        ensures x in s
      {
        if s[0] == c {
          if i > 0 {
            assert Split(s, c)[i] == rest[i - 1];
          }
        } else if i == 0 {
          assert Split(s, c)[0] == [s[0]] + rest[0];
        } else {
          assert Split(s, c)[i] == rest[i];
        }
      }
    }
  }

  /** The opener test of `parseComments`: optional white space, then a slash and two stars. */
  predicate IsOpener(line: string) {
    var k := SpaceEnd(line, 0);
    k + 3 <= |line| && line[k] == '/' && line[k + 1] == '*' && line[k + 2] == '*'
  }

  /** The closer test of `parseComments`: a star and a slash, then nothing but white space. */
  predicate IsCloser(line: string) {
    ClosesFrom(line, 0)
  }

  /** A star and a slash followed by nothing but white space start at or after `p`. */
  predicate ClosesFrom(line: string, p: nat)
    decreases |line| - p
  {
    p + 2 <= |line| && ((line[p] == '*' && line[p + 1] == '/' && AllSpace(line, p + 2)) || ClosesFrom(line, p + 1))
  }

  /** The closer test holds exactly when some position holds a star, a slash and then white space. */
  lemma {:induction false} ClosesFromMeaning(line: string, p: nat)
    ensures ClosesFrom(line, p) <==>
      exists q :: p <= q && q + 2 <= |line| && line[q] == '*' && line[q + 1] == '/' && AllSpace(line, q + 2)
    decreases |line| - p
  {
    if p + 2 <= |line| {
      ClosesFromMeaning(line, p + 1);
    }
  }

  /** Every character from `q` on is white space. */
  predicate AllSpace(s: string, q: nat) {
    forall k :: q <= k < |s| ==> IsSpace(s[k])
  }

  /** One block: the 1-based line of its opener and the lines between opener and closer. */
  datatype Block = Block(line: nat, body: seq<string>)

  /** The first line at or after `i` that closes a comment, or the number of lines. */
  function CloserFrom(lines: seq<string>, i: nat): (r: nat)
    requires i <= |lines|
    ensures i <= r <= |lines|
    ensures r < |lines| ==> IsCloser(lines[r])
    ensures forall k :: i <= k < r ==> !IsCloser(lines[k])
    decreases |lines| - i
  {
    if i == |lines| || IsCloser(lines[i]) then i else CloserFrom(lines, i + 1)
  }

  /**
   * The collected lines of a block opened on line `o`: from `o` up to the closer, the opener
   * then being shifted off (nothing, when the opener line closes the comment itself).
   */
  function Body(lines: seq<string>, o: nat): seq<string>
    requires o < |lines|
  {
    var e := CloserFrom(lines, o);
    if e == o then [] else lines[o + 1..e]
  }

  /** The blocks the scan finds from line `i` on. */
  function BlocksFrom(lines: seq<string>, i: nat): seq<Block>
    requires i <= |lines|
    decreases |lines| - i
  {
    if i == |lines| then []
    else if IsOpener(lines[i]) then
      var e := CloserFrom(lines, i);
      [Block(i + 1, Body(lines, i))] + (if e == |lines| then [] else BlocksFrom(lines, e + 1))
    else BlocksFrom(lines, i + 1)
  }

  /** The blocks of the whole code. */
  function Blocks(lines: seq<string>): seq<Block> {
    BlocksFrom(lines, 0)
  }

  /**
   * The inner loop of the scan, from an opener on line `o`: the index of the first line at
   * or after it that closes the comment (the number of lines when none does), and the lines
   * passed on the way, the opener first.
   */
  method CollectComment(lines: seq<string>, o: nat) returns (i: nat, commentlines: seq<string>)
    requires o < |lines|
    ensures i == CloserFrom(lines, o)
    ensures commentlines == lines[o..i]
  {
    i := o;
    var line := lines[i];
    commentlines := [];
    while i < |lines| && !IsCloser(line)
      invariant o <= i <= |lines|
      invariant CloserFrom(lines, o) == CloserFrom(lines, i)
      invariant commentlines == lines[o..i]
      invariant i < |lines| ==> line == lines[i]
      decreases |lines| - i
    {
      SliceSnoc(lines, o, i);
      commentlines := commentlines + [line];
      i := i + 1;
      if i < |lines| {
        line := lines[i];
      }
    }
  }

  /**
   * The scan loop of `parseComments`: one index runs over the lines, the inner loop (here
   * `CollectComment`) moving it to the closer, after which the outer loop steps past the
   * closer.
   */
  method Scan(lines: seq<string>) returns (blocks: seq<Block>)
    ensures blocks == Blocks(lines)
  {
    blocks := [];
    var i := 0;
    while i < |lines|
      invariant i <= |lines| + 1
      invariant i <= |lines| ==> blocks + BlocksFrom(lines, i) == Blocks(lines)
      invariant i == |lines| + 1 ==> blocks == Blocks(lines)
      decreases |lines| + 1 - i
    {
      var line := lines[i];
      if IsOpener(line) {
        var linenum := i + 1;
        ghost var o := i;
        var commentlines;
        i, commentlines := CollectComment(lines, i);
        if |commentlines| > 0 {
          commentlines := commentlines[1..];
        }
        assert commentlines == Body(lines, o);
        ghost var before := blocks;
        blocks := blocks + [Block(linenum, commentlines)];
        if i < |lines| {
          assert blocks + BlocksFrom(lines, i + 1) == Blocks(lines) by {
            BlocksFromOpener(lines, o);
            AppendAssoc(before, [Block(linenum, commentlines)], BlocksFrom(lines, i + 1));
          }
        } else {
          assert blocks == Blocks(lines) by {
            BlocksFromEnd(lines, o);
          }
        }
      } else {
        assert BlocksFrom(lines, i) == BlocksFrom(lines, i + 1);
      }
      i := i + 1;
    }
  }

  /**
   * A block's body is every line after the opener, up to and without the first line that
   * closes a comment, or up to the end of the code when none does; an opener that closes the
   * comment on its own line gives an empty body.
   */
  lemma BodyMeaning(lines: seq<string>, o: nat)
    requires o < |lines|
    ensures o + 1 + |Body(lines, o)| <= |lines| + (if IsCloser(lines[o]) then 1 else 0)
    ensures IsCloser(lines[o]) ==> Body(lines, o) == []
    ensures !IsCloser(lines[o]) ==>
      Body(lines, o) == lines[o + 1..CloserFrom(lines, o)] &&
      (forall k :: 0 <= k < |Body(lines, o)| ==> !IsCloser(Body(lines, o)[k])) &&
      (o + 1 + |Body(lines, o)| == |lines| || IsCloser(lines[o + 1 + |Body(lines, o)|]))
  {
  }

  /** Every block starts on an opener line at or after `i`, and holds that opener's body. */
  lemma {:induction false} BlocksShape(lines: seq<string>, i: nat)
    requires i <= |lines|
    ensures forall b :: b in BlocksFrom(lines, i) ==>
      i < b.line <= |lines| && IsOpener(lines[b.line - 1]) && b.body == Body(lines, b.line - 1)
    decreases |lines| - i
  {
    if i < |lines| {
      if IsOpener(lines[i]) {
        var e := CloserFrom(lines, i);
        if e < |lines| {
          BlocksShape(lines, e + 1);
        }
      } else {
        BlocksShape(lines, i + 1);
      }
    }
  }

  /** Where the block opened on line `o` (0-based) ends: its closer, or the end of the code. */
  function End(lines: seq<string>, b: Block): nat
    requires 0 < b.line <= |lines|
  {
    CloserFrom(lines, b.line - 1)
  }

  /** Each block lies within the code and starts after the previous block's end. */
  predicate Ordered(lines: seq<string>, bs: seq<Block>) {
    (forall k :: 0 <= k < |bs| ==> 0 < bs[k].line <= |lines|) &&
    (forall k :: 0 <= k < |bs| - 1 ==> End(lines, bs[k]) < bs[k + 1].line - 1)
  }

  /** One step of `BlocksFrom` at an opener whose comment is closed. */
  lemma BlocksFromOpener(lines: seq<string>, i: nat)
    requires i < |lines| && IsOpener(lines[i]) && CloserFrom(lines, i) < |lines|
    ensures BlocksFrom(lines, i) == [Block(i + 1, Body(lines, i))] + BlocksFrom(lines, CloserFrom(lines, i) + 1)
  {
  }

  lemma SliceSnoc<T>(s: seq<T>, a: nat, b: nat)
    requires a <= b < |s|
    ensures s[a..b + 1] == s[a..b] + [s[b]]
  {
  }

  /** One step of `BlocksFrom` at an opener whose comment runs to the end of the code. */
  lemma BlocksFromEnd(lines: seq<string>, i: nat)
    requires i < |lines| && IsOpener(lines[i]) && CloserFrom(lines, i) == |lines|
    ensures BlocksFrom(lines, i) == [Block(i + 1, Body(lines, i))]
  {
  }

  /** Putting a block in front of ordered blocks that start after its end keeps them ordered. */
  lemma OrderedCons(lines: seq<string>, head: Block, tail: seq<Block>)
    requires 0 < head.line <= |lines| && Ordered(lines, tail)
    requires |tail| > 0 ==> End(lines, head) < tail[0].line - 1
    ensures Ordered(lines, [head] + tail)
  {
    var bs := [head] + tail;
    forall k | 0 <= k < |bs|
      ensures 0 < bs[k].line <= |lines|
    {
      if k > 0 {
        assert bs[k] == tail[k - 1];
      }
    }
    forall k | 0 <= k < |bs| - 1
      ensures End(lines, bs[k]) < bs[k + 1].line - 1
    {
      if k > 0 {
        assert bs[k] == tail[k - 1] && bs[k + 1] == tail[k];
      }
    }
  }

  /**
   * Blocks come in source order, each starting after the previous one's closer: no line of a
   * block, its closer included, is scanned for an opener.
   */
  lemma {:induction false} BlocksOrdered(lines: seq<string>, i: nat)
    requires i <= |lines|
    ensures Ordered(lines, BlocksFrom(lines, i))
    decreases |lines| - i
  {
    if i < |lines| {
      if IsOpener(lines[i]) {
        var e := CloserFrom(lines, i);
        var head := Block(i + 1, Body(lines, i));
        if e < |lines| {
          var tail := BlocksFrom(lines, e + 1);
          assert Ordered(lines, [head] + tail) by {
            BlocksOrdered(lines, e + 1);
            BlocksShape(lines, e + 1);
            if |tail| > 0 {
              assert tail[0] in tail;
            }
            OrderedCons(lines, head, tail);
          }
          BlocksFromOpener(lines, i);
        } else {
          BlocksFromEnd(lines, i);
        }
      } else {
        BlocksOrdered(lines, i + 1);
      }
    }
  }

  /** Line `p` (0-based) lies in block `b` after its opener: a body line or its closer. */
  predicate Inside(lines: seq<string>, b: Block, p: nat)
    requires 0 < b.line <= |lines|
  {
    b.line - 1 < p <= End(lines, b)
  }

  /** Every opener line at or after `i` that no block covers starts a block. */
  lemma {:induction false} BlocksComplete(lines: seq<string>, i: nat, p: nat)
    requires i <= p < |lines| && IsOpener(lines[p])
    requires forall b :: b in BlocksFrom(lines, i) && 0 < b.line <= |lines| ==> !Inside(lines, b, p)
    ensures exists b :: b in BlocksFrom(lines, i) && b.line == p + 1
    decreases |lines| - i
  {
    if IsOpener(lines[i]) {
      var e := CloserFrom(lines, i);
      var head := Block(i + 1, Body(lines, i));
      assert head in BlocksFrom(lines, i);
      if p > i {
        assert !Inside(lines, head, p);
        assert e < p;
        var tail := BlocksFrom(lines, e + 1);
        assert forall b :: b in tail ==> b in BlocksFrom(lines, i);
        BlocksComplete(lines, e + 1, p);
      }
    } else {
      BlocksComplete(lines, i + 1, p);
    }
  }

  /**
   * The scan in full: the blocks are exactly the opener lines no earlier block covers, in
   * order, each with its body.
   */
  lemma BlocksMeaning(lines: seq<string>)
    ensures var bs := Blocks(lines);
      (forall k :: 0 <= k < |bs| ==>
        0 < bs[k].line <= |lines| && IsOpener(lines[bs[k].line - 1]) && bs[k].body == Body(lines, bs[k].line - 1)) &&
      (forall k, j :: 0 <= j < k < |bs| ==> End(lines, bs[j]) < bs[k].line - 1) &&
      (forall p :: 0 <= p < |lines| && IsOpener(lines[p]) && (forall k :: 0 <= k < |bs| ==> !Inside(lines, bs[k], p)) ==>
        exists k :: 0 <= k < |bs| && bs[k].line == p + 1)
  {
    var bs := Blocks(lines);
    BlocksShape(lines, 0);
    BlocksOrdered(lines, 0);
    forall k | 0 <= k < |bs|
      ensures 0 < bs[k].line <= |lines| && IsOpener(lines[bs[k].line - 1]) && bs[k].body == Body(lines, bs[k].line - 1)
    {
      assert bs[k] in bs;
    }
    forall k, j | 0 <= j < k < |bs|
      ensures End(lines, bs[j]) < bs[k].line - 1
    {
      OrderedChain(lines, bs, j, k);
    }
    forall p | 0 <= p < |lines| && IsOpener(lines[p]) && (forall k :: 0 <= k < |bs| ==> !Inside(lines, bs[k], p))
      ensures exists k :: 0 <= k < |bs| && bs[k].line == p + 1
    {
      forall b | b in bs && 0 < b.line <= |lines|
        ensures !Inside(lines, b, p)
      {
        var k :| 0 <= k < |bs| && bs[k] == b;
      }
      BlocksComplete(lines, 0, p);
      var b :| b in bs && b.line == p + 1;
      var k :| 0 <= k < |bs| && bs[k] == b;
    }
  }

  /** Adjacent order extends to any two blocks. */
  lemma {:induction false} OrderedChain(lines: seq<string>, bs: seq<Block>, j: nat, k: nat)
    requires forall m :: 0 <= m < |bs| ==> 0 < bs[m].line <= |lines|
    requires forall m :: 0 <= m < |bs| - 1 ==> End(lines, bs[m]) < bs[m + 1].line - 1
    requires j < k < |bs|
    ensures End(lines, bs[j]) < bs[k].line - 1
    decreases k - j
  {
    if j + 1 < k {
      OrderedChain(lines, bs, j + 1, k);
      assert bs[j + 1].line - 1 <= End(lines, bs[j + 1]);
    }
  }
}
