/** The class `Osmosis`: its input lines, its intermediate code, and the
    three operations that fill and read them. */
module OsmosisModel {
  import opened Text
  import opened Tokens
  import opened Lexing
  import opened Rendering

  class Osmosis {
    /** The lines of the document, as `Load` splits them. */
    var filecontents: seq<string>
    /** The token stream `Lexer` appends to and `Parser` reads. */
    var intermediate: seq<Token>
    /** The character set passed to `htmlspecialchars`; see `Text.Html`. */
    var charset: string

    constructor()
      ensures filecontents == [] && intermediate == [] && charset == "UTF-8"
    {
      filecontents := [];
      intermediate := [];
      charset := "UTF-8";
    }

    /** Replace the document by the lines of `s`, split at every line feed. */
    method Load(s: string)
      modifies this`filecontents
      ensures filecontents == SplitLines(s)
    {
      filecontents := SplitLines(s);
    }

    /** Tokenise the document. The tokens are appended: intermediate code of
        an earlier run is kept. */
    method Lexer()
      modifies this`intermediate
      ensures intermediate == old(intermediate) + Lex(filecontents)
    {
      var state := Outside;
      var lines := filecontents;
      for n := 0 to |lines|
        invariant state == RunUpTo(lines, n).state
        invariant intermediate == old(intermediate) + RunUpTo(lines, n).tokens
      {
        var line := lines[n];
        ghost var before, step := intermediate, Step(state, line);
        SeqAssoc(old(intermediate), RunUpTo(lines, n).tokens, step.tokens);

        // A code block ends at a heading or paragraph line, which is then
        // read again below in state Outside.
        if state == InCode {
          if MatchesHeadingStart(line) || MatchesParaStart(line) {
            state := Outside;
            intermediate := intermediate + [CodeEnd];
            SeqAssoc(before, [CodeEnd], StepOutside(line).tokens);
          } else {
            intermediate := intermediate + [Text(StripCodeIndent(RTrim(line)))];
          }
        }

        // A blank line ends a paragraph.
        if state == InPara {
          if MatchesBlankLine(line) {
            intermediate := intermediate + [ParaEnd];
            state := Outside;
          } else {
            intermediate := intermediate + [Text(Trim(line))];
          }
          continue;
        }

        if state == Outside {
          if MatchesCodeStart(line) {
            state := InCode;
            intermediate := intermediate + [CodeStart, Text(Trim(line))];
          } else if MatchesHeadingStart(line) {
            intermediate := intermediate + [Heading, Text(StripHeadingPrefix(Trim(line)))];
          } else if MatchesParaStart(line) {
            state := InPara;
            intermediate := intermediate + [ParaStart, Text(Trim(line))];
          }
          continue;
        }
      }
      LexByIndex(lines);
      SeqAssoc(old(intermediate), RunUpTo(lines, |lines|).tokens, Close(state));
      match state
      case InCode => intermediate := intermediate + [CodeEnd];
      case InPara => intermediate := intermediate + [ParaEnd];
      case Outside =>
    }

    /** Write the HTML for the intermediate code. */
    method Parser() returns (output: string)
      ensures output == Render(intermediate)
    {
      output := "";
      var doneHeading, inHeading, inBlock := false, false, false;
      for n := 0 to |intermediate|
        invariant RenderFrom(Start, intermediate[..n]) == Rendered(RenderState(doneHeading, inHeading, inBlock), output)
      {
        var token := intermediate[n];
        assert intermediate[..n + 1] == intermediate[..n] + [token];
        RenderSnoc(Start, intermediate[..n], token);
        ghost var before := output;
        ghost var e := Emit(RenderState(doneHeading, inHeading, inBlock), token);

        if inHeading {
          output := output + TokenString(token);
          if doneHeading {
            output := output + "</h2>\n";
          } else {
            output := output + "</h1>\n";
            doneHeading := true;
          }
          inHeading := false;
          assert output == before + e.html;
          continue;
        }
        match token
        case Heading =>
          if doneHeading {
            output := output + "<h2>";
          } else {
            output := output + "<h1>";
          }
          inHeading := true;
        case CodeStart =>
          inBlock := true;
          output := output + "<pre>";
        case CodeEnd =>
          inBlock := false;
          output := output + "</pre>\n";
        case ParaStart =>
          output := output + "<p>";
          inBlock := true;
        case ParaEnd =>
          output := output + "</p>\n";
          inBlock := false;
        case Text(s) =>
          output := output + Html(s);
          if inBlock {
            output := output + "\n";
          }
          assert output == before + e.html;
      }
      assert intermediate[..|intermediate|] == intermediate;
    }

    /** The intermediate code, as `Lexer` left it. */
    function GetIntermediateCode(): (ts: seq<Token>)
      reads this
    {
      intermediate
    }
  }

  /** Loading `s` and lexing it on a fresh object leaves exactly the tokens
      of a run of well-formed blocks, and parsing them writes that run's
      reference HTML. */
  lemma Pipeline(s: string) returns (bs: seq<Block>)
    ensures Canonical(bs)
    ensures Lex(SplitLines(s)) == Flatten(bs)
    ensures Render(Lex(SplitLines(s))) == Document(bs, false)
  {
    bs := LexBlocks(SplitLines(s));
    RenderFlatten(bs);
  }
}
