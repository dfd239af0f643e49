/**
 Rendering of answers: a constrained markdown subset to escaped HTML, line by line.

 The regular expressions are written out as functions on strings.
 */
module Markdown {
  import opened Sequences

  // ----- escaping

  function ReplaceChar(s: string, c: char, rep: string): string {
    if s == "" then "" else (if s[0] == c then rep else [s[0]]) + ReplaceChar(s[1..], c, rep)
  }

  /** Five replacements, one after the other; the ampersand goes first. */
  function EscapeHtml(text: string): string {
    var a := ReplaceChar(text, '&', "&amp;");
    var b := ReplaceChar(a, '<', "&lt;");
    var c := ReplaceChar(b, '>', "&gt;");
    var d := ReplaceChar(c, '"', "&quot;");
    ReplaceChar(d, '\'', "&#39;")
  }

  function EscapeChar(c: char): string {
    if c == '&' then "&amp;"
    else if c == '<' then "&lt;"
    else if c == '>' then "&gt;"
    else if c == '"' then "&quot;"
    else if c == '\'' then "&#39;"
    else [c]
  }

  /** Escaping in a single pass. */
  function EscapeEach(s: string): string {
    if s == "" then "" else EscapeChar(s[0]) + EscapeEach(s[1..])
  }

  /** Reads the five entities back; any other ampersand stands for itself. */
  function Unescape(s: string): string
    decreases |s|
  {
    if s == "" then ""
    else if "&amp;" <= s then "&" + Unescape(s[5..])
    else if "&lt;" <= s then "<" + Unescape(s[4..])
    else if "&gt;" <= s then ">" + Unescape(s[4..])
    else if "&quot;" <= s then "\"" + Unescape(s[6..])
    else if "&#39;" <= s then "'" + Unescape(s[5..])
    else [s[0]] + Unescape(s[1..])
  }

  lemma {:induction false} ReplaceAppend(a: string, b: string, c: char, rep: string)
    ensures ReplaceChar(a + b, c, rep) == ReplaceChar(a, c, rep) + ReplaceChar(b, c, rep)
  {
    if a == "" {
      assert a + b == b;
    } else {
      ReplaceAppend(a[1..], b, c, rep);
      assert (a + b)[1..] == a[1..] + b && (a + b)[0] == a[0];
      Reassociate(if a[0] == c then rep else [a[0]], ReplaceChar(a[1..], c, rep), ReplaceChar(b, c, rep));
    }
  }

  lemma {:induction false} ReplaceAbsent(s: string, c: char, rep: string)
    requires c !in s
    ensures ReplaceChar(s, c, rep) == s
  {
    if s != "" {
      ReplaceAbsent(s[1..], c, rep);
    }
  }

  lemma ReplaceOne(x: char, c: char, rep: string)
    ensures ReplaceChar([x], c, rep) == if x == c then rep else [x]
  {
    assert [x][1..] == "";
  }

  /** What the first `k` replacements make of one character. */
  function EscapeUpTo(k: nat, c: char): string {
    if c == Special(0) && k > 0 then Entity(0)
    else if c == Special(1) && k > 1 then Entity(1)
    else if c == Special(2) && k > 2 then Entity(2)
    else if c == Special(3) && k > 3 then Entity(3)
    else if c == Special(4) && k > 4 then Entity(4)
    else [c]
  }

  function Special(k: nat): char {
    if k == 0 then '&' else if k == 1 then '<' else if k == 2 then '>' else if k == 3 then '"' else '\''
  }

  function Entity(k: nat): string {
    if k == 0 then "&amp;"
    else if k == 1 then "&lt;"
    else if k == 2 then "&gt;"
    else if k == 3 then "&quot;"
    else "&#39;"
  }

  function EscapeAllUpTo(k: nat, s: string): string {
    if s == "" then "" else EscapeUpTo(k, s[0]) + EscapeAllUpTo(k, s[1..])
  }

  /** The next replacement finds its character only where the input had it. */
  lemma StageOne(k: nat, c: char)
    requires k < 5
    ensures ReplaceChar(EscapeUpTo(k, c), Special(k), Entity(k)) == EscapeUpTo(k + 1, c)
  {
    if EscapeUpTo(k, c) == [c] {
      ReplaceOne(c, Special(k), Entity(k));
    } else {
      assert Special(k) !in EscapeUpTo(k, c);
      ReplaceAbsent(EscapeUpTo(k, c), Special(k), Entity(k));
    }
  }

  lemma {:induction false} Stage(k: nat, s: string)
    requires k < 5
    ensures ReplaceChar(EscapeAllUpTo(k, s), Special(k), Entity(k)) == EscapeAllUpTo(k + 1, s)
  {
    if s != "" {
      ReplaceAppend(EscapeUpTo(k, s[0]), EscapeAllUpTo(k, s[1..]), Special(k), Entity(k));
      StageOne(k, s[0]);
      Stage(k, s[1..]);
    }
  }

  lemma {:induction false} Untouched(s: string)
    ensures EscapeAllUpTo(0, s) == s
  {
    if s != "" {
      Untouched(s[1..]);
    }
  }

  lemma {:induction false} FullyEscaped(s: string)
    ensures EscapeAllUpTo(5, s) == EscapeEach(s)
  {
    if s != "" {
      FullyEscaped(s[1..]);
    }
  }

  /** The five replacements together are the single pass: none of them touches what another wrote. */
  lemma EscapeIsOnePass(s: string)
    ensures EscapeHtml(s) == EscapeEach(s)
  {
    Untouched(s);
    Stage(0, s);
    Stage(1, s);
    Stage(2, s);
    Stage(3, s);
    Stage(4, s);
    FullyEscaped(s);
  }

  lemma UnescapeEntity(c: char, rest: string)
    ensures Unescape(EscapeChar(c) + rest) == [c] + Unescape(rest)
  {
    var e := EscapeChar(c);
    var s := e + rest;
    assert s[|e|..] == rest && s[0] == e[0];
    if |e| == 1 {
      assert s[1..] == rest && s[0] != '&';
    } else {
      assert s[1] == e[1];
      assert e <= s;
      assert "&amp;"[1] == 'a' && "&lt;"[1] == 'l' && "&gt;"[1] == 'g' && "&quot;"[1] == 'q' && "&#39;"[1] == '#';
    }
  }

  lemma {:induction false} UnescapeEach(s: string)
    ensures Unescape(EscapeEach(s)) == s
  {
    if s != "" {
      UnescapeEach(s[1..]);
      UnescapeEntity(s[0], EscapeEach(s[1..]));
    }
  }

  /** Escaping loses nothing. */
  lemma EscapeRoundTrip(s: string)
    ensures Unescape(EscapeHtml(s)) == s
  {
    EscapeIsOnePass(s);
    UnescapeEach(s);
  }

  lemma {:induction false} EscapedHasNoBracket(s: string)
    ensures '<' !in EscapeEach(s) && '>' !in EscapeEach(s) && '"' !in EscapeEach(s) && '\'' !in EscapeEach(s)
  {
    if s != "" {
      EscapedHasNoBracket(s[1..]);
    }
  }

  // ----- inline formatting

  function RunWhile(p: char -> bool, s: string): (n: nat)
    ensures n <= |s| && (forall i :: 0 <= i < n ==> p(s[i])) && (n < |s| ==> !p(s[n]))
  {
    if s != "" && p(s[0]) then 1 + RunWhile(p, s[1..]) else 0
  }

  /** The number of leading characters other than `mark`. */
  function Plain(mark: char, s: string): (n: nat)
    ensures n <= |s| && (forall i :: 0 <= i < n ==> s[i] != mark) && (n < |s| ==> s[n] == mark)
  {
    RunWhile(c => c != mark, s)
  }

  lemma PlainIs(mark: char, s: string, n: nat)
    requires n <= |s| && (forall i :: 0 <= i < n ==> s[i] != mark) && (n < |s| ==> s[n] == mark)
    ensures Plain(mark, s) == n
  {
  }

  /**
   A global replacement of spans: `marks`, one or more other characters, `marks`, where `marks`
   is the same character once or twice.  The scan takes plain text up to the next mark, a span,
   or a single mark that starts no span.
   */
  function Spans(mark: char, width: nat, open: string, close: string, s: string): string
    requires 1 <= width <= 2
    decreases |s|
  {
    if s == "" then ""
    else Piece(mark, width, open, close, s) + Spans(mark, width, open, close, s[Consumed(mark, width, s)..])
  }

  function Consumed(mark: char, width: nat, s: string): (k: nat)
    requires 1 <= width <= 2 && s != ""
    ensures 1 <= k <= |s|
  {
    var n := Plain(mark, s);
    var inside := SpanLength(mark, width, s);
    if n > 0 then n else if inside > 0 then 2 * width + inside else 1
  }

  function Piece(mark: char, width: nat, open: string, close: string, s: string): string
    requires 1 <= width <= 2 && s != ""
  {
    var n := Plain(mark, s);
    var inside := SpanLength(mark, width, s);
    if n > 0 then s[..n]
    else if inside > 0 then open + s[width..width + inside] + close
    else [s[0]]
  }

  /** The length of the text between the marks of a span at the start of `s`; 0 if there is no span. */
  function SpanLength(mark: char, width: nat, s: string): (n: nat)
    requires 1 <= width <= 2
    ensures n > 0 ==> 2 * width + n <= |s| && s[width + n] == mark
  {
    if !Marked(mark, width, s) then 0
    else
      var n := Plain(mark, s[width..]);
      if Marked(mark, width, s[width + n..]) then n else 0
  }

  predicate Marked(mark: char, width: nat, s: string)
    requires 1 <= width <= 2
  {
    |s| >= width && s[0] == mark && s[width - 1] == mark
  }

  function FormatInline(escaped: string): string {
    var a := Spans('`', 1, "<code>", "</code>", escaped);
    var b := Spans('*', 2, "<strong>", "</strong>", a);
    Spans('*', 1, "<em>", "</em>", b)
  }

  // ----- which tags can occur

  /** The tags that rendering inserts. */
  ghost function Tags(): set<string> {
    {"<code>", "</code>", "<strong>", "</strong>", "<em>", "</em>", "<p>", "</p>",
     "<h1>", "</h1>", "<h2>", "</h2>", "<h3>", "</h3>", "<ul>", "</ul>", "<ol>", "</ol>", "<li>", "</li>"}
  }

  /** What makes tags survive inline formatting: no mark inside, no bracket but the first. */
  ghost predicate WellShaped(tags: set<string>) {
    forall t :: t in tags ==> t != "" && '`' !in t && '*' !in t && forall i :: 0 < i < |t| ==> t[i] != '<'
  }

  /** Every `<` starts one of the given tags. */
  ghost predicate OnlyTags(tags: set<string>, s: string) {
    forall i :: 0 <= i < |s| && s[i] == '<' ==> exists t :: t in tags && t <= s[i..]
  }

  lemma TagIsSafe(tags: set<string>, t: string)
    requires WellShaped(tags) && t in tags
    ensures OnlyTags(tags, t)
  {
    assert t[0..] == t;
  }

  lemma SafeAppend(tags: set<string>, a: string, b: string)
    requires OnlyTags(tags, a) && OnlyTags(tags, b)
    ensures OnlyTags(tags, a + b)
  {
    var s := a + b;
    forall i | 0 <= i < |s| && s[i] == '<'
      ensures exists t :: t in tags && t <= s[i..]
    {
      if i < |a| {
        var t :| t in tags && t <= a[i..];
        assert s[i..] == a[i..] + b;
      } else {
        var t :| t in tags && t <= b[i - |a|..];
        assert s[i..] == b[i - |a|..];
      }
    }
  }

  lemma SafeSuffix(tags: set<string>, s: string, k: nat)
    requires OnlyTags(tags, s) && k <= |s|
    ensures OnlyTags(tags, s[k..])
  {
    forall i | 0 <= i < |s[k..]| && s[k..][i] == '<'
      ensures exists t :: t in tags && t <= s[k..][i..]
    {
      var t :| t in tags && t <= s[k + i..];
      assert s[k..][i..] == s[k + i..];
    }
  }

  /** A cut in front of a mark never goes through a tag. */
  lemma SafePrefix(tags: set<string>, s: string, k: nat)
    requires WellShaped(tags) && OnlyTags(tags, s) && k <= |s|
    requires k < |s| ==> s[k] == '`' || s[k] == '*'
    ensures OnlyTags(tags, s[..k])
  {
    forall i | 0 <= i < k && s[i] == '<'
      ensures exists t :: t in tags && t <= s[..k][i..]
    {
      var t :| t in tags && t <= s[i..];
      assert forall j :: 0 <= j < |t| ==> t[j] == s[i + j];
      assert s[..k][i..] == s[i..][..k - i];
    }
  }

  lemma NoBracketIsSafe(tags: set<string>, s: string)
    requires '<' !in s
    ensures OnlyTags(tags, s)
  {
  }

  lemma Wrapped(tags: set<string>, open: string, content: string, close: string)
    requires WellShaped(tags) && open in tags && close in tags && OnlyTags(tags, content)
    ensures OnlyTags(tags, open + content + close)
  {
    TagIsSafe(tags, open);
    TagIsSafe(tags, close);
    SafeAppend(tags, open, content);
    SafeAppend(tags, open + content, close);
  }

  /** The text between two marks keeps its tags whole. */
  lemma ContentIsSafe(tags: set<string>, s: string, from: nat, to: nat)
    requires WellShaped(tags) && OnlyTags(tags, s) && from <= to < |s| && (s[to] == '`' || s[to] == '*')
    ensures OnlyTags(tags, s[from..to])
  {
    SafePrefix(tags, s, to);
    SafeSuffix(tags, s[..to], from);
    assert s[..to][from..] == s[from..to];
  }

  lemma PieceIsSafe(tags: set<string>, mark: char, width: nat, open: string, close: string, s: string)
    requires WellShaped(tags) && (mark == '`' || mark == '*') && 1 <= width <= 2 && open in tags && close in tags
    requires OnlyTags(tags, s) && s != ""
    ensures OnlyTags(tags, Piece(mark, width, open, close, s))
  {
    var n, inside := Plain(mark, s), SpanLength(mark, width, s);
    if n > 0 {
      SafePrefix(tags, s, n);
    } else if inside > 0 {
      SpanIsSafe(tags, mark, width, open, close, s);
    } else {
      NoBracketIsSafe(tags, [mark]);
    }
  }

  lemma SpanIsSafe(tags: set<string>, mark: char, width: nat, open: string, close: string, s: string)
    requires WellShaped(tags) && (mark == '`' || mark == '*') && 1 <= width <= 2 && open in tags && close in tags
    requires OnlyTags(tags, s) && s != "" && SpanLength(mark, width, s) > 0
    ensures OnlyTags(tags, open + s[width..width + SpanLength(mark, width, s)] + close)
  {
    var end := width + SpanLength(mark, width, s);
    ContentIsSafe(tags, s, width, end);
    Wrapped(tags, open, s[width..end], close);
  }

  /** Inserting tags at marks keeps every tag whole. */
  lemma {:induction false} SpansAreSafe(tags: set<string>, mark: char, width: nat, open: string, close: string,
      s: string)
    requires WellShaped(tags) && (mark == '`' || mark == '*') && 1 <= width <= 2 && open in tags && close in tags
    requires OnlyTags(tags, s)
    ensures OnlyTags(tags, Spans(mark, width, open, close, s))
    decreases |s|
  {
    if s != "" {
      var k := Consumed(mark, width, s);
      PieceIsSafe(tags, mark, width, open, close, s);
      SafeSuffix(tags, s, k);
      SpansAreSafe(tags, mark, width, open, close, s[k..]);
      SafeAppend(tags, Piece(mark, width, open, close, s), Spans(mark, width, open, close, s[k..]));
    }
  }

  lemma TagsAreWellShaped()
    ensures WellShaped(Tags())
  {
  }

  /** Whatever the text, the formatted inline HTML contains no tag but the inserted ones. */
  lemma InlineIsSafe(text: string)
    ensures OnlyTags(Tags(), FormatInline(EscapeHtml(text)))
  {
    EscapeIsOnePass(text);
    EscapedHasNoBracket(text);
    TagsAreWellShaped();
    var tags, e := Tags(), EscapeHtml(text);
    var a := Spans('`', 1, "<code>", "</code>", e);
    var b := Spans('*', 2, "<strong>", "</strong>", a);
    NoBracketIsSafe(tags, e);
    SpansAreSafe(tags, '`', 1, "<code>", "</code>", e);
    SpansAreSafe(tags, '*', 2, "<strong>", "</strong>", a);
    SpansAreSafe(tags, '*', 1, "<em>", "</em>", b);
  }
}
