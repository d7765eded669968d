/** Character classes, trimming, line splitting and HTML escaping: the string
    primitives that the Osmosis converter takes from PHP and PCRE. */
module Text {

  /** The regular-expression class `\s` of PCRE2 without UTF or Unicode
      properties: space, tab, line feed, vertical tab, form feed, carriage return. */
  predicate IsSpace(c: char) {
    c == ' ' || c == '\t' || c == '\n' || c == '\U{B}' || c == '\U{C}' || c == '\r'
  }

  /** The characters PHP's `trim` and `rtrim` remove by default: space, tab,
      line feed, carriage return, NUL and vertical tab (not form feed). */
  predicate IsTrimmed(c: char) {
    c == ' ' || c == '\t' || c == '\n' || c == '\r' || c == '\0' || c == '\U{B}'
  }

  /** The class `[\d\.]`: an ASCII digit or a full stop. */
  predicate IsDigitOrDot(c: char) {
    '0' <= c <= '9' || c == '.'
  }

  predicate IsNotNewline(c: char) {
    c != '\n'
  }

  // Sequence identities, kept apart so that proofs about the lexer and the
  // renderer need not rediscover them.

  lemma SeqUnit<T>(a: seq<T>)
    ensures a + [] == a
  {
  }

  lemma SeqAssoc<T>(a: seq<T>, b: seq<T>, c: seq<T>)
    ensures (a + b) + c == a + (b + c)
  {
  }

  lemma Snoc<T>(b: seq<T>)
    requires b != []
    ensures b == b[..|b| - 1] + [b[|b| - 1]]
  {
  }

  lemma SplitLast<T>(a: seq<T>, b: seq<T>)
    requires b != []
    ensures b == b[..|b| - 1] + [b[|b| - 1]]
    ensures a + b == (a + b[..|b| - 1]) + [b[|b| - 1]]
  {
  }

  /** Length of the longest prefix of `s` whose characters all satisfy `p`
      (see `SpanIsLongestPrefix`). */
  function Span(p: char -> bool, s: string): (n: nat)
    ensures n <= |s|
  {
    if s == [] || !p(s[0]) then 0 else 1 + Span(p, s[1..])
  }

  lemma {:induction false} SpanIsLongestPrefix(p: char -> bool, s: string)
    ensures forall i :: 0 <= i < Span(p, s) ==> p(s[i])
    ensures Span(p, s) < |s| ==> !p(s[Span(p, s)])
  {
    if s != [] && p(s[0]) {
      SpanIsLongestPrefix(p, s[1..]);
    }
  }

  /** The span is the first position whose character fails `p`. */
  lemma SpanAt(p: char -> bool, s: string, n: nat)
    requires n <= |s| && forall i :: 0 <= i < n ==> p(s[i])
    requires n < |s| ==> !p(s[n])
    ensures Span(p, s) == n
  {
    SpanIsLongestPrefix(p, s);
  }

  /** PHP `rtrim`: drop trailing trimmable characters (see `RTrimShape`). */
  function RTrim(s: string): (r: string)
    ensures |r| <= |s|
  {
    if s != [] && IsTrimmed(s[|s| - 1]) then RTrim(s[..|s| - 1]) else s
  }

  lemma {:induction false} RTrimShape(s: string)
    ensures RTrim(s) <= s
    ensures RTrim(s) == [] || !IsTrimmed(RTrim(s)[|RTrim(s)| - 1])
    ensures forall i :: |RTrim(s)| <= i < |s| ==> IsTrimmed(s[i])
    decreases |s|
  {
    if s != [] && IsTrimmed(s[|s| - 1]) {
      RTrimShape(s[..|s| - 1]);
    }
  }

  /** PHP `ltrim`: drop leading trimmable characters. */
  function LTrim(s: string): string {
    s[Span(IsTrimmed, s)..]
  }

  /** PHP `trim`: both ends. */
  function Trim(s: string): string {
    LTrim(RTrim(s))
  }

  /** `trim` keeps the infix of `s` between its leading and its trailing
      trimmable characters, and that infix starts and ends with a character
      it keeps. */
  lemma TrimShape(s: string)
    ensures |Trim(s)| <= |s|
    ensures Span(IsTrimmed, RTrim(s)) <= |RTrim(s)| <= |s|
    ensures Trim(s) == s[Span(IsTrimmed, RTrim(s))..|RTrim(s)|]
    ensures forall i :: 0 <= i < Span(IsTrimmed, RTrim(s)) ==> IsTrimmed(s[i])
    ensures forall i :: |RTrim(s)| <= i < |s| ==> IsTrimmed(s[i])
    ensures Trim(s) == [] || (!IsTrimmed(Trim(s)[0]) && !IsTrimmed(Trim(s)[|Trim(s)| - 1]))
  {
    var r := RTrim(s);
    RTrimShape(s);
    SpanIsLongestPrefix(IsTrimmed, r);
  }

  /** A string whose two ends are not trimmable is its own trim. */
  lemma TrimKeeps(s: string)
    requires s == [] || (!IsTrimmed(s[0]) && !IsTrimmed(s[|s| - 1]))
    ensures Trim(s) == s
    ensures RTrim(s) == s
  {
  }

  /** Trailing trimmable characters after a kept character are all removed by `rtrim`. */
  lemma {:induction false} RTrimTrailing(x: string, t: string)
    requires x == [] || !IsTrimmed(x[|x| - 1])
    requires forall i :: 0 <= i < |t| ==> IsTrimmed(t[i])
    ensures RTrim(x + t) == x
    decreases |t|
  {
    if t == [] {
      assert x + t == x;
    } else {
      var front := t[..|t| - 1];
      assert (x + t)[..|x + t| - 1] == x + front;
      assert (x + t)[|x + t| - 1] == t[|t| - 1];
      RTrimTrailing(x, front);
    }
  }

  /** A string made only of trimmable characters trims to the empty string. */
  lemma {:induction false} TrimmedAway(s: string)
    requires forall i :: 0 <= i < |s| ==> IsTrimmed(s[i])
    ensures RTrim(s) == [] && Trim(s) == []
    decreases |s|
  {
    if s != [] {
      TrimmedAway(s[..|s| - 1]);
    }
  }

  /** Trailing trimming of `w + r` only touches `r` once `r` keeps some character. */
  lemma {:induction false} RTrimAfter(w: string, r: string)
    requires RTrim(r) != []
    ensures RTrim(w + r) == w + RTrim(r)
    decreases |r|
  {
    if IsTrimmed(r[|r| - 1]) {
      assert (w + r)[..|w + r| - 1] == w + r[..|r| - 1];
      RTrimAfter(w, r[..|r| - 1]);
    } else {
      assert (w + r)[|w + r| - 1] == r[|r| - 1];
    }
  }

  /** PHP `explode("\n", s)`: the pieces between line feeds; always at least one. */
  function SplitLines(s: string): (parts: seq<string>)
    ensures |parts| >= 1
    ensures forall k :: 0 <= k < |parts| ==> '\n' !in parts[k]
    decreases |s|
  {
    var n := Span(IsNotNewline, s);
    assert '\n' !in s[..n] by {
      SpanIsLongestPrefix(IsNotNewline, s);
      forall i | 0 <= i < n ensures s[..n][i] != '\n' { assert IsNotNewline(s[i]); }
    }
    if n == |s| then [s] else [s[..n]] + SplitLines(s[n + 1..])
  }

  /** PHP `implode("\n", parts)`, the inverse of `SplitLines`. */
  function JoinLines(parts: seq<string>): string
    decreases |parts|
  {
    if parts == [] then ""
    else if |parts| == 1 then parts[0]
    else parts[0] + "\n" + JoinLines(parts[1..])
  }

  lemma {:induction false} JoinSplit(s: string)
    ensures JoinLines(SplitLines(s)) == s
    decreases |s|
  {
    var n := Span(IsNotNewline, s);
    SpanIsLongestPrefix(IsNotNewline, s);
    if n < |s| {
      JoinSplit(s[n + 1..]);
      var rest := SplitLines(s[n + 1..]);
      assert SplitLines(s) == [s[..n]] + rest;
      assert s == s[..n] + "\n" + s[n + 1..];
    }
  }

  lemma {:induction false} SplitJoin(parts: seq<string>)
    requires |parts| >= 1
    requires forall k :: 0 <= k < |parts| ==> '\n' !in parts[k]
    ensures SplitLines(JoinLines(parts)) == parts
    decreases |parts|
  {
    var p := parts[0];
    var s := JoinLines(parts);
    var n := Span(IsNotNewline, s);
    SpanStopsAtNewline(p, s);
    if |parts| > 1 {
      assert s == p + "\n" + JoinLines(parts[1..]);
      assert s[n + 1..] == JoinLines(parts[1..]);
      SplitJoin(parts[1..]);
      assert parts == [p] + parts[1..];
    }
  }

  /** The first piece of `p + tail` ends where `p` ends when `p` holds no line feed. */
  lemma SpanStopsAtNewline(p: string, s: string)
    requires p <= s && '\n' !in p
    requires |s| > |p| ==> s[|p|] == '\n'
    ensures Span(IsNotNewline, s) == |p|
    ensures s[..|p|] == p
  {
    assert forall i :: 0 <= i < |p| ==> s[i] == p[i];
    SpanAt(IsNotNewline, s, |p|);
  }

  /** A final line feed leaves an empty last line behind. */
  lemma SplitFinalNewline(s: string)
    requires '\n' !in s
    ensures SplitLines(s + "\n") == [s, ""]
  {
    var t := s + "\n";
    SpanStopsAtNewline(s, t);
    assert t[|s| + 1..] == "";
    assert SplitLines("") == [""];
  }

  /** What `htmlspecialchars` with `ENT_QUOTES` writes for one character. */
  function Escape(c: char): string {
    if c == '&' then "&amp;"
    else if c == '<' then "&lt;"
    else if c == '>' then "&gt;"
    else if c == '"' then "&quot;"
    else if c == '\'' then "&#039;"
    else [c]
  }

  predicate IsSpecial(c: char) {
    c == '&' || c == '<' || c == '>' || c == '"' || c == '\''
  }

  /** `htmlspecialchars(s, ENT_QUOTES)`: escaped output holds no markup characters. */
  function Html(s: string): (r: string)
    ensures forall i :: 0 <= i < |r| ==> r[i] != '<' && r[i] != '>' && r[i] != '"' && r[i] != '\''
    ensures |r| >= |s|
  {
    if s == [] then [] else Escape(s[0]) + Html(s[1..])
  }

  /** Decoding of the five entities `Html` writes; every other character stands for itself. */
  function Unescape(s: string): string
    decreases |s|
  {
    if s == [] then []
    else if "&amp;" <= s then "&" + Unescape(s[5..])
    else if "&lt;" <= s then "<" + Unescape(s[4..])
    else if "&gt;" <= s then ">" + Unescape(s[4..])
    else if "&quot;" <= s then "\"" + Unescape(s[6..])
    else if "&#039;" <= s then "'" + Unescape(s[6..])
    else [s[0]] + Unescape(s[1..])
  }

  /** Escaping loses nothing: decoding the escaped text gives the text back. */
  lemma {:induction false} UnescapeHtml(s: string)
    ensures Unescape(Html(s)) == s
  {
    if s != [] {
      UnescapeHtml(s[1..]);
      UnescapeEscape(s[0], Html(s[1..]));
      assert s == [s[0]] + s[1..];
    }
  }

  /** Decoding an escaped character followed by anything. */
  lemma UnescapeEscape(c: char, rest: string)
    ensures Unescape(Escape(c) + rest) == [c] + Unescape(rest)
  {
    if IsSpecial(c) {
      UnescapeEntity(c, rest);
    } else {
      var e := Escape(c) + rest;
      assert e[0] == c && e[1..] == rest;
    }
  }

  lemma UnescapeEntity(c: char, rest: string)
    requires IsSpecial(c)
    ensures Unescape(Escape(c) + rest) == [c] + Unescape(rest)
  {
    var e := Escape(c) + rest;
    if c == '&' {
      assert "&amp;" <= e && e[5..] == rest;
    } else if c == '<' {
      assert !("&amp;" <= e) by { assert e[1] == 'l'; }
      assert "&lt;" <= e && e[4..] == rest;
    } else if c == '>' {
      assert !("&amp;" <= e) && !("&lt;" <= e) by { assert e[1] == 'g'; }
      assert "&gt;" <= e && e[4..] == rest;
    } else if c == '"' {
      assert !("&amp;" <= e) && !("&lt;" <= e) && !("&gt;" <= e) by { assert e[1] == 'q'; }
      assert "&quot;" <= e && e[6..] == rest;
    } else {
      assert !("&amp;" <= e) && !("&lt;" <= e) && !("&gt;" <= e) && !("&quot;" <= e) by { assert e[1] == '#'; }
      assert "&#039;" <= e && e[6..] == rest;
    }
  }

  /** Text without the five special characters is left as it is. */
  lemma {:induction false} HtmlPlain(s: string)
    requires forall i :: 0 <= i < |s| ==> !IsSpecial(s[i])
    ensures Html(s) == s
  {
    if s != [] {
      HtmlPlain(s[1..]);
    }
  }
}
