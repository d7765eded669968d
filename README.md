# Osmosis, modelled in Dafny

Osmosis turns a small plain-text markup dialect into HTML. It knows
numbered headings (`1.2 Title`), code blocks indented by four whitespace
characters, paragraphs, and blank lines that end paragraphs. The class
`Osmosis` (`osmosis.php`) has three steps:

- `Load` splits a string into lines at every line feed.
- `Lexer` runs a three-state machine over the lines. The states are `''`,
  `'code'` and `'para'`. It appends marker tokens (the integers 1 to 5)
  and text lines to the intermediate code.
- `Parser` walks the intermediate code with three flags and writes HTML.
  The first heading becomes `<h1>` and every later one `<h2>`. Text is
  escaped with `htmlspecialchars`. Text lines inside a block end with a
  line feed.

The modules:

- `Text` holds the string primitives the class takes from PHP and PCRE:
  the PCRE `\s` class, PHP's `trim`/`rtrim` set, `explode`/`implode` on
  line feeds, and `htmlspecialchars` with `ENT_QUOTES` plus its decoding.
- `Tokens` defines the intermediate code. It also gives a block view: a
  token stream as a run of headings, code blocks and paragraphs.
- `Lexing` holds the four patterns and one step of the lexer per line
  (`Step`). `Run` is the loop and `Lex` is the loop plus the closing
  `switch`. `LexBlocks` proves that every run of the lexer is the token
  stream of a well-formed run of blocks. The block-closure, heading and
  re-entry properties follow from that.
- `Rendering` holds one step of the parser per token (`Emit`) and the loop
  (`Render`). It also has a block-level reference rendering (`Document`)
  and the proof that the two agree on every block run (`RenderFlatten`).
- `OsmosisModel` holds the class `Osmosis` with its fields `filecontents`,
  `intermediate` and `charset`:
  - `Load` replaces `filecontents` only. `intermediate` is kept, so a
    second `Lexer` run appends to the tokens of the first.
  - `Lexer` is the PHP loop, with its fall-through from the code state into
    the `''` state and its `continue`s. It is proved to append exactly
    `Lex(filecontents)`.
  - `Parser` is the PHP loop over the tokens. It is proved to return exactly
    `Render(intermediate)`.
  - `GetIntermediateCode` returns the field as it is, so it has no
    contract of its own.
- `Scenarios` covers whole documents: the empty one, and a paragraph
  ended by a line feed.

Behaviours of the code worth knowing:

- `Load("x\n")` gives two lines, `x` and the empty line.
- The empty line is not blank, because the blank-line pattern needs at
  least one character. Inside a paragraph the empty line becomes an empty
  text and the paragraph stays open. `"Hello world\n"` renders as
  `<p>Hello world\n\n</p>\n` (`Scenarios.ParagraphWithFinalNewline`).
- Every text line of a paragraph is followed by a line feed, the last one
  before `</p>` included.
- The first line of a code block is fully trimmed; the later lines are
  right-trimmed and then lose their first four characters when all four
  are whitespace.
- Outside a block, a line of four or more characters that are whitespace
  both to `\s` and to `trim` opens a code block whose text is empty
  (`Lexing.WhitespaceLineOpensCode`). A form feed is whitespace to `\s`
  but is kept by `trim`, so a line such as four spaces and a form feed
  opens a code block whose text is the form feed.
- A heading title is written without escaping. The token after a heading
  marker is appended as it is; a marker there is written as its integer.
- A number followed only by characters that are whitespace both to `\s`
  and to `trim`, such as `1. `, becomes a heading whose title is the
  number, `1.`: `trim` removes the whitespace that the prefix pattern
  needs (`Lexing.HeadingWithoutTitle`).

## Model

| member | source | states |
|---|---|---|
| Text.Span | osmosis.php:7-10 | the matched prefix is never longer than the string |
| Text.SpanIsLongestPrefix | osmosis.php:7-10 | the span is the longest prefix of the class: all of it matches and the next character does not |
| Text.SpanAt | osmosis.php:7-10 | a prefix that matches and is followed by a non-matching character is the span |
| Text.RTrim | osmosis.php:53 | `rtrim` never lengthens its argument |
| Text.RTrimShape | osmosis.php:53 | `rtrim` leaves a prefix that ends in a kept character, and everything it dropped is trimmable |
| Text.TrimShape | osmosis.php:63 | `trim` keeps exactly the infix between the leading and the trailing trimmable characters, and that infix starts and ends with a kept character |
| Text.RTrimTrailing | osmosis.php:53 | `rtrim` removes all trailing trimmable characters after a kept character |
| Text.TrimKeeps | osmosis.php:63 | a string whose ends are kept characters is its own `trim` and `rtrim` |
| Text.TrimmedAway | osmosis.php:53 | a string made only of trimmable characters trims to the empty string |
| Text.RTrimAfter | osmosis.php:53 | right-trimming `w + r` only touches `r` once `r` keeps a character |
| Text.SplitLines | osmosis.php:36-39 | `explode` gives at least one piece and no piece holds a line feed |
| Text.JoinSplit | osmosis.php:36-39 | joining the pieces with line feeds gives back the loaded string |
| Text.SplitJoin | osmosis.php:36-39 | splitting the joined lines gives back the lines |
| Text.SpanStopsAtNewline | osmosis.php:38 | the first piece of a string ends exactly at its first line feed |
| Text.SplitFinalNewline | osmosis.php:38 | a final line feed leaves an empty last line |
| Text.Html | osmosis.php:22-25 | escaped text holds no `<`, `>`, `"` or `'` and is never shorter than its input |
| Text.UnescapeHtml | osmosis.php:22-25 | escaping loses nothing: decoding the five entities gives the text back |
| Text.UnescapeEscape | osmosis.php:24 | decoding one escaped character followed by anything gives that character back first |
| Text.HtmlPlain | osmosis.php:22-25 | text without the five special characters is left as it is |
| Tokens.BlockTokensAt | osmosis.php:71-79 | a block's tokens are its start marker, its texts and its end marker |
| Tokens.FlattenStarts | osmosis.php:68-82 | a non-empty run of blocks starts with an opening marker |
| Tokens.Balanced | osmosis.php:41-89 | a run of blocks holds as many code starts as code ends, and as many paragraph starts as ends |
| Tokens.HeadingPaired | osmosis.php:73-75 | in a run of blocks a heading marker is followed by one text and then no further text |
| Tokens.BlockCloses | osmosis.php:48-66 | in a well-formed run a start marker is followed, after at least one text and only texts, by its own end marker |
| Tokens.CodeEndFollowedByOpening | osmosis.php:48-51 | in a well-formed run a code end that is not last is followed by a heading or a paragraph start |
| Lexing.HeadingPrefixLength | osmosis.php:8 | the heading prefix fits in the line |
| Lexing.RunLast | osmosis.php:46 | the loop over one more line is the loop so far plus one step |
| Lexing.RunUpToIsRun | osmosis.php:46 | the first `n` iterations counted by index are the loop over the first `n` lines |
| Lexing.LexByIndex | osmosis.php:46-88 | the lexer's result is its last iteration's tokens plus the tokens that close the block it ended in |
| Lexing.CodeReentry | osmosis.php:48-55 | a heading line is a paragraph line, and a paragraph line never starts code; in code such a line emits the code end followed by a heading or paragraph start and leaves the code state; any other line stays a code text |
| Lexing.CodeLineKeepsDeeperIndent | osmosis.php:53 | a code line keeps the indentation beyond the first four whitespace characters |
| Lexing.CodeLineOfWhitespace | osmosis.php:53 | a code line of trimmable whitespace becomes the empty text |
| Lexing.HeadingPrefix | osmosis.php:8 | the heading pattern matches a number, whitespace and a title, and stripping it leaves exactly the title |
| Lexing.HeadingLine | osmosis.php:73-75 | a numbered heading line emits the heading marker and its title without the trailing whitespace `trim` removes, and the state stays `''` |
| Lexing.HeadingWithoutTitle | osmosis.php:73-75 | a number followed only by characters that are whitespace both to `\s` and to `trim` (`1. `) emits a heading whose title is the number (`1.`), and the state stays `''` |
| Lexing.ParagraphEndConsumesLine | osmosis.php:57-66 | a paragraph followed by a blank line lexes to start, text and end, and the blank line emits nothing more |
| Lexing.WhitespaceLineOpensCode | osmosis.php:69-72 | a line of four or more characters that are whitespace both to `\s` and to `trim` opens a code block with an empty text |
| Lexing.OutsideIgnores | osmosis.php:68-82 | outside a block, lines no pattern matches emit nothing |
| Lexing.ParagraphAbsorbs | osmosis.php:58-66 | in a paragraph every non-blank line is appended trimmed and the paragraph stays open |
| Lexing.CodeAbsorbs | osmosis.php:48-55 | in a code block every line not starting with a non-space is appended as code text and the block stays open |
| Lexing.RunTracks | osmosis.php:46-83 | at every point of the loop the tokens so far are finished blocks followed by the open block |
| Lexing.LexBlocks | osmosis.php:41-89 | every lexer run emits exactly the tokens of a well-formed run of blocks |
| Lexing.LexBalanced | osmosis.php:85-88 | every code block and paragraph that opens also closes: start and end markers balance |
| Lexing.LexBlockCloses | osmosis.php:41-89 | after every start marker come at least one text, only texts, and then the matching end marker |
| Lexing.LexHeadingPaired | osmosis.php:73-75 | every heading marker is followed by exactly one text |
| Lexing.LexCodeEndReentry | osmosis.php:48-51 | a code end that is not last is directly followed by a heading marker or a paragraph start |
| Rendering.RenderFromAppend | osmosis.php:97-146 | rendering two streams one after the other equals rendering their concatenation |
| Rendering.RenderTexts | osmosis.php:139-144 | inside a block every text is escaped and followed by a line feed |
| Rendering.RenderBlock | osmosis.php:97-146 | each block renders as its HTML and leaves no heading or block open |
| Rendering.RenderBlocks | osmosis.php:97-146 | a run of blocks renders as its `Document`, and afterwards a heading has been written if and only if the run held one |
| Rendering.RenderFlatten | osmosis.php:91-148 | the parser's output for a block run is the first heading in `<h1>`, later ones in `<h2>`, titles verbatim, and block lines escaped with a line feed each |
| Rendering.TextOutsideBlock | osmosis.php:98-107 | outside a block a text is escaped with no line feed; right after a heading marker it is written unescaped and closes the heading |
| OsmosisModel.Osmosis.constructor | osmosis.php:5-20 | a new object has no lines, no intermediate code and the character set `UTF-8` |
| OsmosisModel.Osmosis.Load | osmosis.php:36-39 | the lines are the string split at every line feed |
| OsmosisModel.Osmosis.Lexer | osmosis.php:41-89 | the intermediate code gets exactly the lexer's tokens for the lines appended, and what was there is kept |
| OsmosisModel.Osmosis.Parser | osmosis.php:91-148 | the output is exactly the rendering of the intermediate code |
| OsmosisModel.Pipeline | osmosis.php:36-148 | loading and lexing any string gives a well-formed block run, and parsing writes that run's reference HTML |
| Scenarios.EmptyDocument | osmosis.php:36-148 | the empty document lexes to nothing and the empty stream renders as the empty string |
| Scenarios.ParagraphWithFinalNewline | osmosis.php:36-148 | a paragraph line ended by a line feed renders with an extra empty line inside the paragraph |
| Scenarios.LexParagraphThenEmpty | osmosis.php:57-66 | an empty line after a paragraph line is an empty text, and the paragraph closes at the end of the input |
| Scenarios.RenderParagraph | osmosis.php:129-144 | a paragraph of a line and an empty line renders both lines with a line feed each |
| Text.IsSpace | osmosis.php:7-10 | no contract of its own; the PCRE `\s` class of all four patterns: space, tab, line feed, vertical tab, form feed, carriage return |
| Text.IsTrimmed | osmosis.php:53 | no contract of its own; the default set of `trim` and `rtrim` (also lines 63, 72, 75, 79): space, tab, line feed, carriage return, NUL, vertical tab |
| Text.IsDigitOrDot | osmosis.php:8 | no contract of its own; the class `[\d\.]`, used by `HeadingPrefix`, `HeadingLine` and `HeadingWithoutTitle` |
| Text.Trim | osmosis.php:63 | no contract of its own; `TrimShape`, `TrimKeeps` and `TrimmedAway` characterise it |
| Text.LTrim | osmosis.php:63 | no contract of its own; the leading half of `trim`, characterised through `TrimShape` |
| Text.Escape | osmosis.php:24 | no contract of its own; the `ENT_QUOTES` map of one character, inverted by `UnescapeEscape` |
| Lexing.MatchesCodeStart | osmosis.php:7 | no contract of its own; the code-start pattern, used by `CodeReentry` and `WhitespaceLineOpensCode` |
| Lexing.MatchesHeadingStart | osmosis.php:8 | no contract of its own; the heading pattern, characterised by `HeadingPrefix` |
| Lexing.MatchesParaStart | osmosis.php:9 | no contract of its own; the paragraph pattern, related to the other patterns by `CodeReentry` |
| Lexing.MatchesBlankLine | osmosis.php:10 | no contract of its own; the blank-line pattern, used by `ParagraphAbsorbs` and `ParagraphEndConsumesLine` |
| Lexing.StripCodeIndent | osmosis.php:53 | no contract of its own; one indent removed, characterised by `CodeLineKeepsDeeperIndent` |
| Lexing.CodeLineText | osmosis.php:53 | no contract of its own; characterised by `CodeLineKeepsDeeperIndent` and `CodeLineOfWhitespace` |
| Lexing.StripHeadingPrefix | osmosis.php:75 | no contract of its own; characterised by `HeadingPrefix` |
| Lexing.HeadingText | osmosis.php:75 | no contract of its own; characterised by `HeadingLine` and `HeadingWithoutTitle` |
| Lexing.StepOutside | osmosis.php:68-82 | no contract of its own; one line in state `''`, characterised by `HeadingLine`, `WhitespaceLineOpensCode` and `OutsideIgnores` |
| Lexing.Step | osmosis.php:47-82 | no contract of its own; one iteration, characterised by `CodeReentry`, `ParagraphAbsorbs`, `CodeAbsorbs` and `RunTracks` |
| Lexing.Run | osmosis.php:46-83 | no contract of its own; the loop, characterised by `RunLast`, `RunUpToIsRun` and `RunTracks` |
| Lexing.Close | osmosis.php:85-88 | no contract of its own; the closing `switch`, characterised through `LexBlocks` and `LexBalanced` |
| Lexing.Lex | osmosis.php:41-89 | no contract of its own; the lexer's output, characterised by `LexBlocks` and the lemmas after it |
| Rendering.HeadingOpen | osmosis.php:111-115 | no contract of its own; `<h1>` before the first heading has been closed, `<h2>` after, as `RenderFlatten` states through `Document` |
| Rendering.HeadingClose | osmosis.php:100-105 | no contract of its own; the matching `</h1>` or `</h2>` with its line feed, as `RenderFlatten` states through `Document` |
| Rendering.TokenString | osmosis.php:99 | no contract of its own; a token as `.=` writes it, a marker as its integer |
| Rendering.Emit | osmosis.php:98-145 | no contract of its own; one iteration, characterised by `TextOutsideBlock` and `RenderBlock` |
| Rendering.RenderFrom | osmosis.php:97-146 | no contract of its own; the loop, characterised by `RenderFromAppend` and `RenderBlocks` |
| Rendering.Render | osmosis.php:91-148 | no contract of its own; the parser's output, equal to the reference `Document` by `RenderFlatten` |
| OsmosisModel.Osmosis.GetIntermediateCode | osmosis.php:150-153 | no contract of its own; returns `intermediate` as `Lexer` left it |

## Left out

- `LoadFile` and `FileNotFoundException` (`osmosis.php:27-34,156`) are file I/O and are not modelled.
- Text.Html: the `charset` field is kept but does not change escaping. Every character is treated as valid in that character set, so invalid input is never rejected.
- Rendering.Emit: PHP's loose `switch` comparison is not modelled. A text token is never taken for a marker, although PHP would match a text such as `"1"` or `"2.0"` against the marker cases.
- Text.IsSpace, Lexing.MatchesCodeStart: `\s` is the class of PCRE2 without the Unicode option: space, tab, line feed, vertical tab, form feed and carriage return. Older PCRE versions leave out the vertical tab; that variant is not modelled.
- Text.IsTrimmed, Text.Trim: the trimmed set is PHP's default set (space, tab, line feed, carriage return, NUL, vertical tab), taken as characters rather than bytes. Multi-byte encodings are not modelled.
- The unused local `$buffer` of `Lexer` has no counterpart.
- Integer keys of the PHP arrays are not modelled; the intermediate code and the lines are sequences.
