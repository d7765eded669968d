/** The HTML writer of `Osmosis::Parser`: one step per token over three
    flags, and a block-level reference rendering it agrees with. */
module Rendering {
  import opened Text
  import opened Tokens

  /** The flags `$doneHeading`, `$inHeading` and `$inBlock`. */
  datatype RenderState = RenderState(doneHeading: bool, inHeading: bool, inBlock: bool)

  const Start := RenderState(false, false, false)

  /** A state together with the HTML written to reach it. */
  datatype Rendered = Rendered(state: RenderState, html: string)

  /** A token as `$output .= $token` writes it: a marker as its integer value. */
  function TokenString(t: Token): string {
    match t
    case Heading => "1"
    case CodeStart => "2"
    case CodeEnd => "3"
    case ParaStart => "4"
    case ParaEnd => "5"
    case Text(s) => s
  }

  function HeadingOpen(done: bool): string {
    if done then "<h2>" else "<h1>"
  }

  function HeadingClose(done: bool): string {
    if done then "</h2>\n" else "</h1>\n"
  }

  /** One iteration of the parser's loop. The token after a heading marker
      is written as it is, without escaping, and closes the heading. */
  function Emit(st: RenderState, t: Token): Rendered {
    if st.inHeading then
      Rendered(RenderState(true, false, st.inBlock), TokenString(t) + HeadingClose(st.doneHeading))
    else
      match t
      case Heading => Rendered(st.(inHeading := true), HeadingOpen(st.doneHeading))
      case CodeStart => Rendered(st.(inBlock := true), "<pre>")
      case CodeEnd => Rendered(st.(inBlock := false), "</pre>\n")
      case ParaStart => Rendered(st.(inBlock := true), "<p>")
      case ParaEnd => Rendered(st.(inBlock := false), "</p>\n")
      case Text(s) => Rendered(st, Html(s) + (if st.inBlock then "\n" else ""))
  }

  /** The loop over `ts` from `st`, left to right. */
  function RenderFrom(st: RenderState, ts: seq<Token>): Rendered
    decreases |ts|
  {
    if ts == [] then Rendered(st, "")
    else
      var r := RenderFrom(st, ts[..|ts| - 1]);
      var e := Emit(r.state, ts[|ts| - 1]);
      Rendered(e.state, r.html + e.html)
  }

  /** What `Parser()` returns for the intermediate code `ts`. */
  function Render(ts: seq<Token>): string {
    RenderFrom(Start, ts).html
  }

  /** One more token: the loop's last iteration. */
  lemma RenderSnoc(st: RenderState, ts: seq<Token>, t: Token)
    ensures RenderFrom(st, ts + [t]) ==
            Rendered(Emit(RenderFrom(st, ts).state, t).state,
                     RenderFrom(st, ts).html + Emit(RenderFrom(st, ts).state, t).html)
  {
    assert (ts + [t])[..|ts|] == ts;
  }

  /** Rendering `a + b` renders `a`, then `b` from where `a` left off. */
  lemma {:induction false} RenderFromAppend(st: RenderState, a: seq<Token>, b: seq<Token>)
    ensures RenderFrom(st, a + b) ==
            Rendered(RenderFrom(RenderFrom(st, a).state, b).state,
                     RenderFrom(st, a).html + RenderFrom(RenderFrom(st, a).state, b).html)
    decreases |b|
  {
    var ra := RenderFrom(st, a);
    if b == [] {
      SeqUnit(a);
      SeqUnit(ra.html);
    } else {
      var front, t := b[..|b| - 1], b[|b| - 1];
      SplitLast(a, b);
      RenderFromAppend(st, a, front);
      RenderSnoc(st, a + front, t);
      RenderSnoc(ra.state, front, t);
      var rf := RenderFrom(ra.state, front);
      SeqAssoc(ra.html, rf.html, Emit(rf.state, t).html);
    }
  }

  // ---------------------------------------------------------------------
  // The reference rendering of a run of blocks

  /** The lines of a block, each escaped and followed by a line feed. */
  function TextLines(lines: seq<string>): string
    decreases |lines|
  {
    if lines == [] then ""
    else TextLines(lines[..|lines| - 1]) + Html(lines[|lines| - 1]) + "\n"
  }

  /** One block. `headingDone` says whether an earlier block was a heading:
      the first heading is `<h1>`, every later one `<h2>`. A heading's title
      is not escaped. */
  function BlockHtml(b: Block, headingDone: bool): string {
    match b
    case HeadingBlock(t) => HeadingOpen(headingDone) + t + HeadingClose(headingDone)
    case CodeBlock(ls) => "<pre>" + TextLines(ls) + "</pre>\n"
    case ParaBlock(ls) => "<p>" + TextLines(ls) + "</p>\n"
  }

  /** The blocks' HTML, one after the other. */
  function Document(bs: seq<Block>, headingDone: bool): string
    decreases |bs|
  {
    if bs == [] then ""
    else BlockHtml(bs[0], headingDone) + Document(bs[1..], headingDone || bs[0].HeadingBlock?)
  }

  /** Inside a block, each text is escaped and ends with a line feed. */
  lemma {:induction false} RenderTexts(d: bool, lines: seq<string>)
    ensures RenderFrom(RenderState(d, false, true), Texts(lines)) == Rendered(RenderState(d, false, true), TextLines(lines))
    decreases |lines|
  {
    if lines != [] {
      var front, last := lines[..|lines| - 1], lines[|lines| - 1];
      var inside := RenderState(d, false, true);
      TextsSnoc(lines);
      RenderTexts(d, front);
      RenderSnoc(inside, Texts(front), Text(last));
      SeqAssoc(TextLines(front), Html(last), "\n");
    }
  }

  lemma TextsSnoc(lines: seq<string>)
    requires lines != []
    ensures Texts(lines) == Texts(lines[..|lines| - 1]) + [Text(lines[|lines| - 1])]
  {
    var front, last := lines[..|lines| - 1], lines[|lines| - 1];
    assert lines == front + [last];
    TextsAppend(front, [last]);
  }

  /** A block rendered between blocks writes exactly `BlockHtml`. */
  lemma RenderBlock(d: bool, b: Block)
    ensures RenderFrom(RenderState(d, false, false), BlockTokens(b)) ==
            Rendered(RenderState(d || b.HeadingBlock?, false, false), BlockHtml(b, d))
  {
    var st := RenderState(d, false, false);
    match b
    case HeadingBlock(t) =>
      assert [Heading, Text(t)] == [Heading] + [Text(t)];
      RenderFromAppend(st, [Heading], [Text(t)]);
      assert [Heading][..0] == [] && [Text(t)][..0] == [];
    case CodeBlock(ls) =>
      RenderDelimited(d, CodeStart, ls, CodeEnd, "<pre>", "</pre>\n");
    case ParaBlock(ls) =>
      RenderDelimited(d, ParaStart, ls, ParaEnd, "<p>", "</p>\n");
  }

  lemma RenderDelimited(d: bool, open: Token, lines: seq<string>, close: Token, openTag: string, closeTag: string)
    requires (open, close, openTag, closeTag) == (CodeStart, CodeEnd, "<pre>", "</pre>\n") ||
             (open, close, openTag, closeTag) == (ParaStart, ParaEnd, "<p>", "</p>\n")
    ensures RenderFrom(RenderState(d, false, false), [open] + Texts(lines) + [close]) ==
            Rendered(RenderState(d, false, false), openTag + TextLines(lines) + closeTag)
  {
    var st, inside := RenderState(d, false, false), RenderState(d, false, true);
    assert [open][..0] == [] && [close][..0] == [];
    assert RenderFrom(st, [open]) == Rendered(inside, openTag);
    RenderTexts(d, lines);
    RenderFromAppend(st, [open], Texts(lines));
    RenderFromAppend(st, [open] + Texts(lines), [close]);
    assert RenderFrom(inside, [close]) == Rendered(st, closeTag);
  }

  ghost predicate HasHeading(bs: seq<Block>) {
    exists j :: 0 <= j < |bs| && bs[j].HeadingBlock?
  }

  /** A run of blocks renders as its `Document`, and afterwards no heading
      and no block is open. */
  lemma {:induction false} RenderBlocks(d: bool, bs: seq<Block>)
    ensures RenderFrom(RenderState(d, false, false), Flatten(bs)) ==
            Rendered(RenderState(d || HasHeading(bs), false, false), Document(bs, d))
    decreases |bs|
  {
    if bs != [] {
      var b := bs[0];
      RenderBlock(d, b);
      RenderFromAppend(RenderState(d, false, false), BlockTokens(b), Flatten(bs[1..]));
      RenderBlocks(d || b.HeadingBlock?, bs[1..]);
      HasHeadingCons(bs);
    } else {
      assert !HasHeading(bs);
    }
  }

  lemma HasHeadingCons(bs: seq<Block>)
    requires bs != []
    ensures HasHeading(bs) == (bs[0].HeadingBlock? || HasHeading(bs[1..]))
  {
    if HasHeading(bs[1..]) {
      var j :| 0 <= j < |bs[1..]| && bs[1..][j].HeadingBlock?;
      assert bs[j + 1].HeadingBlock?;
    }
    if HasHeading(bs) && !bs[0].HeadingBlock? {
      var j :| 0 <= j < |bs| && bs[j].HeadingBlock?;
      assert bs[1..][j - 1].HeadingBlock?;
    }
  }

  /** The parser's output for the tokens of a run of blocks is that run's
      `Document`: the first heading `<h1>`, the others `<h2>`, titles as
      they are, block lines escaped and each ended by a line feed. */
  lemma RenderFlatten(bs: seq<Block>)
    ensures Render(Flatten(bs)) == Document(bs, false)
  {
    RenderBlocks(false, bs);
  }

  /** Outside a block a text is escaped and gets no line feed; after a
      heading marker the next token is written unescaped. */
  lemma TextOutsideBlock(d: bool, s: string)
    ensures Emit(RenderState(d, false, false), Text(s)).html == Html(s)
    ensures Emit(RenderState(d, true, false), Text(s)).html == s + HeadingClose(d)
  {
  }
}
