/** Whole documents and what the converter makes of them. */
module Scenarios {
  import opened Text
  import opened Tokens
  import opened Lexing
  import opened Rendering

  /** The empty document has one empty line, which lexes to nothing, and the
      empty token stream renders as the empty string. */
  lemma EmptyDocument()
    ensures SplitLines("") == [""]
    ensures Lex(SplitLines("")) == []
    ensures Render(Lex(SplitLines(""))) == ""
  {
    assert [""] == [] + [""];
    RunLast(Outside, [], "");
  }

  /** A one-paragraph document ending in a line feed: the empty line after
      it is not blank (the blank-line pattern needs a character), so it
      stays in the paragraph as an empty text, and the paragraph is closed
      only at the end of the input. */
  lemma ParagraphWithFinalNewline(p: string)
    requires MatchesParaStart(p) && !MatchesHeadingStart(p) && '\n' !in p
    ensures Lex(SplitLines(p + "\n")) == [ParaStart, Text(Trim(p)), Text(""), ParaEnd]
    ensures Render(Lex(SplitLines(p + "\n"))) == "<p>" + Html(Trim(p)) + "\n\n</p>\n"
  {
    SplitFinalNewline(p);
    LexParagraphThenEmpty(p);
    RenderParagraph(Trim(p));
  }

  lemma LexParagraphThenEmpty(p: string)
    requires MatchesParaStart(p) && !MatchesHeadingStart(p)
    ensures Lex([p, ""]) == [ParaStart, Text(Trim(p)), Text(""), ParaEnd]
  {
    assert [p, ""][..1] == [p];
    assert [p] == [] + [p];
    RunLast(Outside, [], p);
    RunLast(Outside, [p], "");
  }

  lemma RenderParagraph(t: string)
    ensures Render([ParaStart, Text(t), Text(""), ParaEnd]) == "<p>" + Html(t) + "\n\n</p>\n"
  {
    RenderDelimited(false, ParaStart, [t, ""], ParaEnd, "<p>", "</p>\n");
    TwoTexts(t, "");
    TwoTextLines(t);
    SeqAssoc("<p>" + Html(t), "\n\n", "</p>\n");
  }

  lemma TwoTexts(a: string, b: string)
    ensures [ParaStart] + Texts([a, b]) + [ParaEnd] == [ParaStart, Text(a), Text(b), ParaEnd]
  {
  }

  lemma TwoTextLines(t: string)
    ensures TextLines([t, ""]) == Html(t) + "\n\n"
  {
    assert [t, ""][..1] == [t] && [t][..0] == [];
    assert TextLines([t]) == Html(t) + "\n";
  }
}
