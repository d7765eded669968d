/** The line classifier of `Osmosis::Lexer`: the four patterns, one step of
    the three-state machine per line, and what the whole run produces. */
module Lexing {
  import opened Text
  import opened Tokens

  /** CODE_START_PATTERN `#^\s{4}#`: the first four characters are whitespace. */
  predicate MatchesCodeStart(s: string) {
    |s| >= 4 && forall i :: 0 <= i < 4 ==> IsSpace(s[i])
  }

  /** HEADING_START_PATTERN `#^[\d\.]+\s+#`: a non-empty run of digits and
      dots directly followed by whitespace. The two classes are disjoint, so
      the run is the maximal one. */
  predicate MatchesHeadingStart(s: string) {
    var d := Span(IsDigitOrDot, s);
    0 < d < |s| && IsSpace(s[d])
  }

  /** Length of the text HEADING_START_PATTERN matches: both runs, greedily. */
  function HeadingPrefixLength(s: string): (n: nat)
    requires MatchesHeadingStart(s)
    ensures n <= |s|
  {
    var d := Span(IsDigitOrDot, s);
    d + Span(IsSpace, s[d..])
  }

  /** PARA_START_PATTERN `#^\S#`: the first character is not whitespace. */
  predicate MatchesParaStart(s: string) {
    |s| > 0 && !IsSpace(s[0])
  }

  /** BLANK_LINE_PATTERN `#^\s+$#`: non-empty and all whitespace. */
  predicate MatchesBlankLine(s: string) {
    |s| > 0 && forall i :: 0 <= i < |s| ==> IsSpace(s[i])
  }

  /** `preg_replace(CODE_START_PATTERN, '', s)`. */
  function StripCodeIndent(s: string): string {
    if MatchesCodeStart(s) then s[4..] else s
  }

  /** `preg_replace(HEADING_START_PATTERN, '', s)`. */
  function StripHeadingPrefix(s: string): string {
    if MatchesHeadingStart(s) then s[HeadingPrefixLength(s)..] else s
  }

  /** The text of a code line after the first: right-trimmed, then its first
      four characters removed when all four are whitespace. */
  function CodeLineText(line: string): string {
    StripCodeIndent(RTrim(line))
  }

  /** The text of a heading: trimmed, then its number removed. */
  function HeadingText(line: string): string {
    StripHeadingPrefix(Trim(line))
  }

  /** The variable `$state`: `''`, `'code'` or `'para'`. */
  datatype LexState = Outside | InCode | InPara

  /** A state together with the tokens emitted to reach it. */
  datatype Lexed = Lexed(state: LexState, tokens: seq<Token>)

  /** A line read in state `''`: open a code block, emit a heading, open a
      paragraph, or (when no pattern matches) emit nothing. */
  function StepOutside(line: string): Lexed {
    if MatchesCodeStart(line) then Lexed(InCode, [CodeStart, Text(Trim(line))])
    else if MatchesHeadingStart(line) then Lexed(Outside, [Heading, Text(HeadingText(line))])
    else if MatchesParaStart(line) then Lexed(InPara, [ParaStart, Text(Trim(line))])
    else Lexed(Outside, [])
  }

  /** One iteration of the lexer's loop. A heading or paragraph line ends a
      code block and is then read again in state `''` (the re-entry step); a
      blank line ends a paragraph and is consumed. */
  function Step(state: LexState, line: string): Lexed {
    match state
    case Outside => StepOutside(line)
    case InCode =>
      if MatchesHeadingStart(line) || MatchesParaStart(line) then
        var r := StepOutside(line);
        Lexed(r.state, [CodeEnd] + r.tokens)
      else Lexed(InCode, [Text(CodeLineText(line))])
    case InPara =>
      if MatchesBlankLine(line) then Lexed(Outside, [ParaEnd])
      else Lexed(InPara, [Text(Trim(line))])
  }

  /** The loop over `lines` from `start`, left to right. */
  function Run(start: LexState, lines: seq<string>): Lexed
    decreases |lines|
  {
    if lines == [] then Lexed(start, [])
    else
      var r := Run(start, lines[..|lines| - 1]);
      var e := Step(r.state, lines[|lines| - 1]);
      Lexed(e.state, r.tokens + e.tokens)
  }

  /** The `switch` after the loop: close the block the input ended in. */
  function Close(state: LexState): seq<Token> {
    match state
    case Outside => []
    case InCode => [CodeEnd]
    case InPara => [ParaEnd]
  }

  /** The tokens one run of the lexer appends for `lines`. */
  function Lex(lines: seq<string>): seq<Token> {
    var r := Run(Outside, lines);
    r.tokens + Close(r.state)
  }

  lemma RunLast(start: LexState, lines: seq<string>, line: string)
    ensures Run(start, lines + [line]) ==
            Lexed(Step(Run(start, lines).state, line).state,
                  Run(start, lines).tokens + Step(Run(start, lines).state, line).tokens)
  {
    assert (lines + [line])[..|lines|] == lines;
  }

  /** The lexer's loop after its first `n` iterations, counted by index. It
      is the same loop as `Run` (see `RunUpToIsRun`) and exists only to state
      the invariant of the `Lexer` loop, which counts lines by index. */
  function RunUpTo(lines: seq<string>, n: nat): Lexed
    requires n <= |lines|
    decreases n
  {
    if n == 0 then Lexed(Outside, [])
    else
      var r := RunUpTo(lines, n - 1);
      var e := Step(r.state, lines[n - 1]);
      Lexed(e.state, r.tokens + e.tokens)
  }

  lemma {:induction false} RunUpToIsRun(lines: seq<string>, n: nat)
    requires n <= |lines|
    ensures RunUpTo(lines, n) == Run(Outside, lines[..n])
    decreases n
  {
    if n > 0 {
      RunUpToIsRun(lines, n - 1);
      assert lines[..n][..n - 1] == lines[..n - 1];
      assert lines[..n][n - 1] == lines[n - 1];
    } else {
      assert lines[..n] == [];
    }
  }

  /** The lexer's result read off its loop's last iteration. */
  lemma LexByIndex(lines: seq<string>)
    ensures Lex(lines) == RunUpTo(lines, |lines|).tokens + Close(RunUpTo(lines, |lines|).state)
  {
    RunUpToIsRun(lines, |lines|);
    assert lines[..|lines|] == lines;
  }

  // ---------------------------------------------------------------------
  // Single lines

  /** A heading line also starts a paragraph, so a code block ends exactly at
      a line whose first character is not whitespace, and that line then
      emits a heading or opens a paragraph. */
  lemma CodeReentry(line: string)
    ensures MatchesHeadingStart(line) ==> MatchesParaStart(line)
    ensures MatchesParaStart(line) ==> !MatchesCodeStart(line)
    ensures MatchesParaStart(line) ==>
              var r := Step(InCode, line);
              |r.tokens| == 3 && r.tokens[0] == CodeEnd &&
              (r.tokens[1] == Heading || r.tokens[1] == ParaStart) && r.state != InCode
    ensures !MatchesParaStart(line) ==> Step(InCode, line) == Lexed(InCode, [Text(CodeLineText(line))])
  {
  }

  /** A code line keeps the indentation beyond the first four whitespace characters. */
  lemma CodeLineKeepsDeeperIndent(w: string, r: string)
    requires |w| == 4 && forall i :: 0 <= i < 4 ==> IsSpace(w[i])
    requires RTrim(r) != []
    ensures CodeLineText(w + r) == RTrim(r)
  {
    RTrimAfter(w, r);
    assert (w + RTrim(r))[..4] == w;
  }

  /** A code line of trimmable whitespace only (an empty line too) becomes the empty text. */
  lemma CodeLineOfWhitespace(line: string)
    requires forall i :: 0 <= i < |line| ==> IsTrimmed(line[i])
    ensures MatchesParaStart(line) ==> line[0] == '\0'
    ensures line == [] || line[0] != '\0' ==> Step(InCode, line) == Lexed(InCode, [Text("")])
  {
    TrimmedAway(line);
  }

  /** The heading pattern matches `d w r` exactly up to `r`. */
  lemma HeadingPrefix(d: string, w: string, r: string)
    requires d != [] && forall i :: 0 <= i < |d| ==> IsDigitOrDot(d[i])
    requires w != [] && forall i :: 0 <= i < |w| ==> IsSpace(w[i])
    requires r != [] && !IsSpace(r[0])
    ensures MatchesHeadingStart(d + w + r) && StripHeadingPrefix(d + w + r) == r
  {
    var s := d + w + r;
    assert forall i :: 0 <= i < |d| ==> s[i] == d[i];
    assert s[|d|] == w[0];
    SpanAt(IsDigitOrDot, s, |d|);
    assert s[|d|..] == w + r;
    assert forall i :: 0 <= i < |w| ==> (w + r)[i] == w[i];
    assert (w + r)[|w|] == r[0];
    SpanAt(IsSpace, w + r, |w|);
    assert s[|d| + |w|..] == r;
  }

  /** A numbered heading `d w r t`, where `t` is trailing trimmable
      whitespace, emits the heading marker and exactly the title `r`, and
      the lexer stays in state `''`. */
  lemma HeadingLine(d: string, w: string, r: string, t: string)
    requires d != [] && forall i :: 0 <= i < |d| ==> IsDigitOrDot(d[i])
    requires w != [] && forall i :: 0 <= i < |w| ==> IsSpace(w[i])
    requires r != [] && !IsSpace(r[0]) && !IsTrimmed(r[|r| - 1])
    requires forall i :: 0 <= i < |t| ==> IsTrimmed(t[i])
    ensures MatchesHeadingStart(d + w + r + t) && !MatchesCodeStart(d + w + r + t)
    ensures Step(Outside, d + w + r + t) == Lexed(Outside, [Heading, Text(r)])
  {
    var s := d + w + r;
    assert s[|s| - 1] == r[|r| - 1];
    RTrimTrailing(s, t);
    assert (s + t)[0] == d[0] && s[0] == d[0];
    SpanAt(IsTrimmed, s, 0);
    assert Trim(s + t) == s;
    HeadingPrefix(d, w, r);
    assert HeadingText(s + t) == r;
    assert d + w + (r + t) == s + t;
    HeadingPrefix(d, w, r + t);
  }

  /** A heading line whose number `d` is followed only by characters `w`
      that are whitespace both to `\s` and to `trim` keeps its number as its
      title (`1. ` becomes `1.`): `trim` removes the whitespace before the
      prefix is matched, so the prefix no longer matches. */
  lemma HeadingWithoutTitle(d: string, w: string)
    requires d != [] && forall i :: 0 <= i < |d| ==> IsDigitOrDot(d[i])
    requires w != [] && forall i :: 0 <= i < |w| ==> IsSpace(w[i]) && IsTrimmed(w[i])
    ensures MatchesHeadingStart(d + w) && !MatchesCodeStart(d + w)
    ensures Step(Outside, d + w) == Lexed(Outside, [Heading, Text(d)])
  {
    assert (d + w)[0] == d[0];
    RTrimTrailing(d, w);
    SpanAt(IsTrimmed, d, 0);
    assert Trim(d + w) == d;
    SpanAt(IsDigitOrDot, d, |d|);
    assert forall i :: 0 <= i < |d| ==> (d + w)[i] == d[i];
    assert (d + w)[|d|] == w[0];
    SpanAt(IsDigitOrDot, d + w, |d|);
  }

  /** In state `'para'` only a blank line ends the paragraph, and that line is
      consumed, even when it would open a code block in state `''`. */
  lemma ParagraphEndConsumesLine(p: string, blank: string)
    requires MatchesParaStart(p) && !MatchesHeadingStart(p)
    requires MatchesBlankLine(blank)
    ensures Lex([p, blank]) == [ParaStart, Text(Trim(p)), ParaEnd]
  {
    assert [p, blank][..1] == [p];
    assert [p] == [] + [p];
    RunLast(Outside, [], p);
    RunLast(Outside, [p], blank);
  }

  /** Outside a block, a line of four or more trimmable whitespace characters
      opens a code block whose only text is empty: a document of blank lines
      need not lex to nothing. */
  lemma WhitespaceLineOpensCode(line: string)
    requires |line| >= 4
    requires forall i :: 0 <= i < |line| ==> IsSpace(line[i]) && IsTrimmed(line[i])
    ensures Lex([line]) == [CodeStart, Text(""), CodeEnd]
  {
    TrimmedAway(line);
    assert MatchesCodeStart(line);
    assert StepOutside(line) == Lexed(InCode, [CodeStart, Text("")]);
    assert [line] == [] + [line];
    RunLast(Outside, [], line);
    assert Run(Outside, [line]) == Lexed(InCode, [CodeStart, Text("")]);
  }

  // ---------------------------------------------------------------------
  // Runs of lines

  /** Lines that no start pattern matches (the empty line, or one to three
      whitespace characters and then text) emit nothing outside a block. */
  lemma {:induction false} OutsideIgnores(lines: seq<string>)
    requires forall k :: 0 <= k < |lines| ==>
               !MatchesCodeStart(lines[k]) && !MatchesHeadingStart(lines[k]) && !MatchesParaStart(lines[k])
    ensures Run(Outside, lines) == Lexed(Outside, [])
    ensures Lex(lines) == []
    decreases |lines|
  {
    if lines != [] {
      var front := lines[..|lines| - 1];
      OutsideIgnores(front);
      RunLast(Outside, front, lines[|lines| - 1]);
      Snoc(lines);
    }
  }

  /** Inside a paragraph, every line that is not blank is appended trimmed as
      a text, whatever it looks like (empty, numbered or indented). */
  lemma {:induction false} ParagraphAbsorbs(lines: seq<string>)
    requires forall k :: 0 <= k < |lines| ==> !MatchesBlankLine(lines[k])
    ensures Run(InPara, lines).state == InPara
    ensures |Run(InPara, lines).tokens| == |lines|
    ensures forall k :: 0 <= k < |lines| ==> Run(InPara, lines).tokens[k] == Text(Trim(lines[k]))
    decreases |lines|
  {
    if lines != [] {
      var front := lines[..|lines| - 1];
      ParagraphAbsorbs(front);
      RunLast(InPara, front, lines[|lines| - 1]);
      Snoc(lines);
    }
  }

  /** Inside a code block, every line that starts with whitespace (or is
      empty) is appended as its code text. */
  lemma {:induction false} CodeAbsorbs(lines: seq<string>)
    requires forall k :: 0 <= k < |lines| ==> !MatchesParaStart(lines[k])
    ensures Run(InCode, lines).state == InCode
    ensures |Run(InCode, lines).tokens| == |lines|
    ensures forall k :: 0 <= k < |lines| ==> Run(InCode, lines).tokens[k] == Text(CodeLineText(lines[k]))
    decreases |lines|
  {
    if lines != [] {
      var front := lines[..|lines| - 1];
      CodeAbsorbs(front);
      CodeReentry(lines[|lines| - 1]);
      RunLast(InCode, front, lines[|lines| - 1]);
      Snoc(lines);
    }
  }

  // ---------------------------------------------------------------------
  // The block structure of the whole run

  /** The tokens emitted so far are the finished blocks `done` followed by
      the start marker and lines `open` of the block still open. While no
      paragraph is open, the last finished block is not a code block. */
  ghost predicate Tracks(r: Lexed, done: seq<Block>, open: seq<string>) {
    Canonical(done) &&
    match r.state
    case Outside =>
      open == [] && r.tokens == Flatten(done) && (done == [] || !done[|done| - 1].CodeBlock?)
    case InCode =>
      open != [] && r.tokens == Flatten(done) + [CodeStart] + Texts(open) &&
      (done == [] || !done[|done| - 1].CodeBlock?)
    case InPara =>
      open != [] && r.tokens == Flatten(done) + [ParaStart] + Texts(open)
  }

  lemma FlattenSnoc(done: seq<Block>, b: Block)
    ensures Flatten(done + [b]) == Flatten(done) + BlockTokens(b)
  {
    FlattenAppend(done, [b]);
    assert Flatten([b]) == BlockTokens(b) + Flatten([]);
  }

  /** The end marker completes the tokens of the open block `b`. */
  lemma FinishBlock(tokens: seq<Token>, done: seq<Block>, b: Block, start: Token, end: Token)
    requires !b.HeadingBlock? && BlockTokens(b) == [start] + Texts(b.lines) + [end]
    requires tokens == Flatten(done) + [start] + Texts(b.lines)
    ensures tokens + [end] == Flatten(done + [b])
  {
    FlattenSnoc(done, b);
    SeqAssoc(Flatten(done) + [start], Texts(b.lines), [end]);
    SeqAssoc(Flatten(done), [start], Texts(b.lines) + [end]);
    SeqAssoc([start], Texts(b.lines), [end]);
  }

  /** One more line of the open block. */
  lemma ExtendOpen(tokens: seq<Token>, prefix: seq<Token>, open: seq<string>, line: string)
    requires tokens == prefix + Texts(open)
    ensures tokens + [Text(line)] == prefix + Texts(open + [line])
  {
    TextsAppend(open, [line]);
    assert Texts([line]) == [Text(line)];
    SeqAssoc(prefix, Texts(open), [Text(line)]);
  }

  /** The first line of a block just opened. */
  lemma OpenWith(prefix: seq<Token>, start: Token, line: string)
    ensures prefix + [start, Text(line)] == prefix + [start] + Texts([line])
  {
    assert Texts([line]) == [Text(line)];
    SeqAssoc(prefix, [start], [Text(line)]);
    assert [start] + [Text(line)] == [start, Text(line)];
  }

  lemma CanonicalSnoc(done: seq<Block>, b: Block)
    requires Canonical(done)
    requires !b.HeadingBlock? ==> b.lines != []
    requires b.CodeBlock? && done != [] ==> !done[|done| - 1].CodeBlock?
    ensures Canonical(done + [b])
  {
    var bs := done + [b];
    assert forall j :: 0 <= j < |done| ==> bs[j] == done[j];
  }

  /** A line read in state `''`. A code block just closed in `done` is
      followed by a line that starts a heading or a paragraph. */
  lemma StepOutsideTracks(tokens: seq<Token>, done: seq<Block>, line: string) returns (done2: seq<Block>, open2: seq<string>)
    requires Canonical(done) && tokens == Flatten(done)
    requires done != [] && done[|done| - 1].CodeBlock? ==> MatchesParaStart(line)
    ensures Tracks(Lexed(StepOutside(line).state, tokens + StepOutside(line).tokens), done2, open2)
  {
    CodeReentry(line);
    if MatchesCodeStart(line) {
      done2, open2 := done, [Trim(line)];
      OpenWith(tokens, CodeStart, Trim(line));
    } else if MatchesHeadingStart(line) {
      var b := HeadingBlock(HeadingText(line));
      done2, open2 := done + [b], [];
      FlattenSnoc(done, b);
      CanonicalSnoc(done, b);
    } else if MatchesParaStart(line) {
      done2, open2 := done, [Trim(line)];
      OpenWith(tokens, ParaStart, Trim(line));
    } else {
      done2, open2 := done, [];
    }
  }

  lemma StepCodeTracks(tokens: seq<Token>, done: seq<Block>, open: seq<string>, line: string) returns (done2: seq<Block>, open2: seq<string>)
    requires Tracks(Lexed(InCode, tokens), done, open)
    ensures Tracks(Lexed(Step(InCode, line).state, tokens + Step(InCode, line).tokens), done2, open2)
  {
    CodeReentry(line);
    if MatchesParaStart(line) {
      done2, open2 := CodeEndTracks(tokens, done, open, line);
    } else {
      var c := CodeLineText(line);
      done2, open2 := done, open + [c];
      ExtendOpen(tokens, Flatten(done) + [CodeStart], open, c);
    }
  }

  /** The re-entry step: the code block closes and the same line is read in state `''`. */
  lemma CodeEndTracks(tokens: seq<Token>, done: seq<Block>, open: seq<string>, line: string) returns (done2: seq<Block>, open2: seq<string>)
    requires Tracks(Lexed(InCode, tokens), done, open)
    requires MatchesParaStart(line)
    ensures Tracks(Lexed(StepOutside(line).state, tokens + [CodeEnd] + StepOutside(line).tokens), done2, open2)
  {
    var closed := CloseBlock(tokens, done, CodeBlock(open), CodeStart, CodeEnd);
    done2, open2 := StepOutsideTracks(Flatten(closed), closed, line);
  }

  lemma StepParaTracks(tokens: seq<Token>, done: seq<Block>, open: seq<string>, line: string) returns (done2: seq<Block>, open2: seq<string>)
    requires Tracks(Lexed(InPara, tokens), done, open)
    ensures Tracks(Lexed(Step(InPara, line).state, tokens + Step(InPara, line).tokens), done2, open2)
  {
    if MatchesBlankLine(line) {
      assert Step(InPara, line) == Lexed(Outside, [ParaEnd]);
      done2 := CloseBlock(tokens, done, ParaBlock(open), ParaStart, ParaEnd);
      open2 := [];
    } else {
      assert Step(InPara, line) == Lexed(InPara, [Text(Trim(line))]);
      done2, open2 := done, open + [Trim(line)];
      ExtendOpen(tokens, Flatten(done) + [ParaStart], open, Trim(line));
    }
  }

  lemma StepTracks(r: Lexed, done: seq<Block>, open: seq<string>, line: string) returns (done2: seq<Block>, open2: seq<string>)
    requires Tracks(r, done, open)
    ensures Tracks(Lexed(Step(r.state, line).state, r.tokens + Step(r.state, line).tokens), done2, open2)
  {
    match r.state
    case Outside =>
      done2, open2 := StepOutsideTracks(r.tokens, done, line);
    case InCode =>
      done2, open2 := StepCodeTracks(r.tokens, done, open, line);
    case InPara =>
      done2, open2 := StepParaTracks(r.tokens, done, open, line);
  }

  lemma {:induction false} RunTracks(lines: seq<string>) returns (done: seq<Block>, open: seq<string>)
    ensures Tracks(Run(Outside, lines), done, open)
    decreases |lines|
  {
    if lines == [] {
      done, open := [], [];
    } else {
      var front := lines[..|lines| - 1];
      var d, o := RunTracks(front);
      done, open := StepTracks(Run(Outside, front), d, o, lines[|lines| - 1]);
    }
  }

  /** Every run of the lexer emits a run of `Canonical` blocks: the input
      ending inside a block closes it too. */
  lemma LexBlocks(lines: seq<string>) returns (bs: seq<Block>)
    ensures Canonical(bs) && Lex(lines) == Flatten(bs)
  {
    var done, open := RunTracks(lines);
    bs := CloseTracks(Run(Outside, lines), done, open);
  }

  /** The `switch` after the loop turns the open block into a finished one. */
  lemma CloseTracks(r: Lexed, done: seq<Block>, open: seq<string>) returns (bs: seq<Block>)
    requires Tracks(r, done, open)
    ensures Canonical(bs) && r.tokens + Close(r.state) == Flatten(bs)
  {
    match r.state
    case Outside =>
      bs := done;
    case InCode =>
      bs := CloseBlock(r.tokens, done, CodeBlock(open), CodeStart, CodeEnd);
    case InPara =>
      bs := CloseBlock(r.tokens, done, ParaBlock(open), ParaStart, ParaEnd);
  }

  /** Closing the open block `b`: its end marker finishes its tokens. */
  lemma CloseBlock(tokens: seq<Token>, done: seq<Block>, b: Block, start: Token, end: Token) returns (bs: seq<Block>)
    requires !b.HeadingBlock? && b.lines != [] && Canonical(done)
    requires b.CodeBlock? && done != [] ==> !done[|done| - 1].CodeBlock?
    requires BlockTokens(b) == [start] + Texts(b.lines) + [end]
    requires tokens == Flatten(done) + [start] + Texts(b.lines)
    ensures bs == done + [b]
    ensures Canonical(bs) && tokens + [end] == Flatten(bs)
  {
    bs := done + [b];
    FinishBlock(tokens, done, b, start, end);
    CanonicalSnoc(done, b);
  }

  /** Block closure: code and paragraph markers balance in every run. */
  lemma LexBalanced(lines: seq<string>)
    ensures multiset(Lex(lines))[CodeStart] == multiset(Lex(lines))[CodeEnd]
    ensures multiset(Lex(lines))[ParaStart] == multiset(Lex(lines))[ParaEnd]
  {
    var bs := LexBlocks(lines);
    Balanced(bs);
  }

  /** Block closure: a start marker is followed by at least one text and its
      own end marker, with only texts in between. */
  lemma LexBlockCloses(lines: seq<string>, i: nat)
    requires i < |Lex(lines)|
    ensures Lex(lines)[i] == CodeStart ==> exists j :: ClosedAt(Lex(lines), i, j, CodeEnd)
    ensures Lex(lines)[i] == ParaStart ==> exists j :: ClosedAt(Lex(lines), i, j, ParaEnd)
  {
    var bs := LexBlocks(lines);
    if Lex(lines)[i] == CodeStart {
      BlockCloses(bs, i, CodeStart, CodeEnd);
    }
    if Lex(lines)[i] == ParaStart {
      BlockCloses(bs, i, ParaStart, ParaEnd);
    }
  }

  /** A heading marker is followed by exactly one text. */
  lemma LexHeadingPaired(lines: seq<string>, i: nat)
    requires i < |Lex(lines)| && Lex(lines)[i] == Heading
    ensures i + 1 < |Lex(lines)| && Lex(lines)[i + 1].Text?
    ensures i + 2 < |Lex(lines)| ==> !Lex(lines)[i + 2].Text?
  {
    var bs := LexBlocks(lines);
    HeadingPaired(bs, i);
  }

  /** A code-end marker that is not the last token is directly followed by a
      heading or a paragraph start: the line that ended the block. */
  lemma LexCodeEndReentry(lines: seq<string>, i: nat)
    requires i + 1 < |Lex(lines)| && Lex(lines)[i] == CodeEnd
    ensures Lex(lines)[i + 1] == Heading || Lex(lines)[i + 1] == ParaStart
  {
    var bs := LexBlocks(lines);
    CodeEndFollowedByOpening(bs, i);
  }
}
