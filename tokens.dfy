/** The intermediate code between the lexer and the parser, and a block view
    of it: a stream is a run of headings, code blocks and paragraphs. */
module Tokens {

  /** One entry of `intermediate`: the markers HEADING_TOKEN (1) to
      PARA_END_TOKEN (5), or a plain text line. */
  datatype Token = Heading | CodeStart | CodeEnd | ParaStart | ParaEnd | Text(text: string)

  /** A document block; the lines of a code block or a paragraph are the
      texts between its two markers. */
  datatype Block = HeadingBlock(title: string) | CodeBlock(lines: seq<string>) | ParaBlock(lines: seq<string>)

  /** One text token per line, in order. */
  function Texts(lines: seq<string>): (ts: seq<Token>)
    ensures |ts| == |lines|
    ensures forall i :: 0 <= i < |lines| ==> ts[i] == Text(lines[i])
  {
    seq(|lines|, i requires 0 <= i < |lines| => Text(lines[i]))
  }

  lemma TextsAppend(a: seq<string>, b: seq<string>)
    ensures Texts(a + b) == Texts(a) + Texts(b)
  {
    assert forall i :: 0 <= i < |a + b| ==> Texts(a + b)[i] == (Texts(a) + Texts(b))[i];
  }

  /** The tokens that stand for one block. */
  function BlockTokens(b: Block): seq<Token> {
    match b
    case HeadingBlock(t) => [Heading, Text(t)]
    case CodeBlock(ls) => [CodeStart] + Texts(ls) + [CodeEnd]
    case ParaBlock(ls) => [ParaStart] + Texts(ls) + [ParaEnd]
  }

  /** The token stream of a run of blocks. */
  function Flatten(bs: seq<Block>): seq<Token>
    decreases |bs|
  {
    if bs == [] then [] else BlockTokens(bs[0]) + Flatten(bs[1..])
  }

  lemma {:induction false} FlattenAppend(a: seq<Block>, b: seq<Block>)
    ensures Flatten(a + b) == Flatten(a) + Flatten(b)
    decreases |a|
  {
    if a != [] {
      assert (a + b)[1..] == a[1..] + b;
      FlattenAppend(a[1..], b);
    } else {
      assert a + b == b;
    }
  }

  /** The block runs the lexer produces: every code block and paragraph has at
      least one line, and a code block is never directly followed by another. */
  ghost predicate Canonical(bs: seq<Block>) {
    (forall j :: 0 <= j < |bs| && !bs[j].HeadingBlock? ==> bs[j].lines != []) &&
    (forall j, k :: 0 <= j && k == j + 1 && k < |bs| && bs[j].CodeBlock? ==> !bs[k].CodeBlock?)
  }

  predicate Opens(t: Token) {
    t == Heading || t == CodeStart || t == ParaStart
  }

  /** Where a block's tokens are: markers at the ends, texts in between. */
  lemma BlockTokensAt(b: Block)
    ensures b.HeadingBlock? ==> BlockTokens(b) == [Heading, Text(b.title)]
    ensures !b.HeadingBlock? ==> |BlockTokens(b)| == |b.lines| + 2
    ensures !b.HeadingBlock? ==> forall k :: 0 < k < |b.lines| + 1 ==> BlockTokens(b)[k] == Text(b.lines[k - 1])
    ensures b.CodeBlock? ==> BlockTokens(b)[0] == CodeStart && BlockTokens(b)[|b.lines| + 1] == CodeEnd
    ensures b.ParaBlock? ==> BlockTokens(b)[0] == ParaStart && BlockTokens(b)[|b.lines| + 1] == ParaEnd
  {
  }

  /** A non-empty run of blocks starts with an opening marker. */
  lemma FlattenStarts(bs: seq<Block>)
    requires bs != []
    ensures Flatten(bs) != [] && Opens(Flatten(bs)[0])
    ensures Flatten(bs)[0] == BlockTokens(bs[0])[0]
  {
    BlockTokensAt(bs[0]);
  }

  /** Every code block and every paragraph closes: start and end markers come in equal numbers. */
  lemma {:induction false} Balanced(bs: seq<Block>)
    ensures multiset(Flatten(bs))[CodeStart] == multiset(Flatten(bs))[CodeEnd]
    ensures multiset(Flatten(bs))[ParaStart] == multiset(Flatten(bs))[ParaEnd]
    decreases |bs|
  {
    if bs != [] {
      Balanced(bs[1..]);
      var m := multiset(BlockTokens(bs[0]));
      assert multiset(Flatten(bs)) == m + multiset(Flatten(bs[1..]));
      match bs[0]
      case HeadingBlock(_) =>
      case CodeBlock(ls) =>
        TextsHoldNoMarker(ls);
        assert m == multiset{CodeStart} + multiset(Texts(ls)) + multiset{CodeEnd};
      case ParaBlock(ls) =>
        TextsHoldNoMarker(ls);
        assert m == multiset{ParaStart} + multiset(Texts(ls)) + multiset{ParaEnd};
    }
  }

  lemma TextsHoldNoMarker(ls: seq<string>)
    ensures multiset(Texts(ls))[CodeStart] == 0 && multiset(Texts(ls))[CodeEnd] == 0
    ensures multiset(Texts(ls))[ParaStart] == 0 && multiset(Texts(ls))[ParaEnd] == 0
  {
    var t := Texts(ls);
    assert CodeStart !in t && CodeEnd !in t && ParaStart !in t && ParaEnd !in t;
  }

  /** A heading marker is followed by exactly one text: the token after it is
      a text and the one after that, if any, is not. */
  lemma {:induction false} HeadingPaired(bs: seq<Block>, i: nat)
    requires i < |Flatten(bs)| && Flatten(bs)[i] == Heading
    ensures i + 1 < |Flatten(bs)| && Flatten(bs)[i + 1].Text?
    ensures i + 2 < |Flatten(bs)| ==> !Flatten(bs)[i + 2].Text?
    decreases |bs|
  {
    var b, rest := bs[0], Flatten(bs[1..]);
    var bt := BlockTokens(b);
    assert Flatten(bs) == bt + rest;
    BlockTokensAt(b);
    if i < |bt| {
      assert bt[i] == Heading;
      assert b.HeadingBlock? && i == 0;
      if i + 2 < |Flatten(bs)| {
        FlattenStarts(bs[1..]);
      }
    } else {
      HeadingPaired(bs[1..], i - |bt|);
    }
  }

  /** The block opened at `i` is closed by `close` at `j`, with only texts in between. */
  ghost predicate ClosedAt(ts: seq<Token>, i: nat, j: nat, close: Token) {
    i + 1 < j < |ts| && ts[j] == close && forall k :: i < k < j ==> ts[k].Text?
  }

  lemma ClosedAtShift(pre: seq<Token>, ts: seq<Token>, i: nat, j: nat, close: Token)
    requires ClosedAt(ts, i, j, close)
    ensures ClosedAt(pre + ts, i + |pre|, j + |pre|, close)
  {
    assert forall k :: i + |pre| < k < j + |pre| ==> (pre + ts)[k] == ts[k - |pre|];
  }

  /** Inside a run of `Canonical` blocks, a start marker of kind `open` is
      followed by at least one text and then the end marker `close`, with
      nothing but texts in between: blocks neither nest nor interleave. */
  lemma {:induction false} BlockCloses(bs: seq<Block>, i: nat, open: Token, close: Token)
    requires (open, close) == (CodeStart, CodeEnd) || (open, close) == (ParaStart, ParaEnd)
    requires Canonical(bs)
    requires i < |Flatten(bs)| && Flatten(bs)[i] == open
    ensures exists j :: ClosedAt(Flatten(bs), i, j, close)
    decreases |bs|
  {
    var bt, rest := BlockTokens(bs[0]), Flatten(bs[1..]);
    assert Flatten(bs) == bt + rest;
    if i < |bt| {
      FirstBlockCloses(bs[0], rest, i, open, close);
    } else {
      assert Canonical(bs[1..]);
      assert rest[i - |bt|] == open;
      BlockCloses(bs[1..], i - |bt|, open, close);
      var j :| ClosedAt(rest, i - |bt|, j, close);
      ClosedAtShift(bt, rest, i - |bt|, j, close);
    }
  }

  lemma FirstBlockCloses(b: Block, rest: seq<Token>, i: nat, open: Token, close: Token)
    requires (open, close) == (CodeStart, CodeEnd) || (open, close) == (ParaStart, ParaEnd)
    requires !b.HeadingBlock? ==> b.lines != []
    requires i < |BlockTokens(b)| && BlockTokens(b)[i] == open
    ensures ClosedAt(BlockTokens(b) + rest, i, |BlockTokens(b)| - 1, close)
  {
    var bt := BlockTokens(b);
    BlockTokensAt(b);
    assert i == 0 && !b.HeadingBlock?;
    assert forall k :: 0 <= k < |bt| ==> (bt + rest)[k] == bt[k];
  }

  /** Inside a run of `Canonical` blocks, a code-end marker that is not the
      last token is directly followed by a heading or a paragraph start. */
  lemma {:induction false} CodeEndFollowedByOpening(bs: seq<Block>, i: nat)
    requires Canonical(bs)
    requires i + 1 < |Flatten(bs)| && Flatten(bs)[i] == CodeEnd
    ensures Flatten(bs)[i + 1] == Heading || Flatten(bs)[i + 1] == ParaStart
    decreases |bs|
  {
    var b, rest := bs[0], Flatten(bs[1..]);
    var bt := BlockTokens(b);
    assert Flatten(bs) == bt + rest;
    BlockTokensAt(b);
    if i < |bt| {
      assert b.CodeBlock? && i == |bt| - 1;
      FlattenStarts(bs[1..]);
      assert BlockTokens(bs[1])[0] == Flatten(bs)[i + 1];
      BlockTokensAt(bs[1]);
    } else {
      assert Canonical(bs[1..]);
      CodeEndFollowedByOpening(bs[1..], i - |bt|);
    }
  }
}
