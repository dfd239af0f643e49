/**
 Rendering keeps the text: with the tags taken out and the entities read back, what is left of
 the HTML is the text that was put in, apart from marks, white space and line markers.
 */
module MarkdownText {
  import opened Wrappers
  import opened Numerals
  import opened Sequences
  import opened Strings
  import opened Markdown
  import opened MarkdownNesting
  import opened MarkdownBlocks

  // ----- filtering characters

  function Keep(p: char -> bool, s: string): string {
    if s == "" then "" else (if p(s[0]) then [s[0]] else "") + Keep(p, s[1..])
  }

  predicate NotMark(c: char) {
    c != '`' && c != '*'
  }

  /** Neither a mark nor white space. */
  predicate IsLetter(c: char) {
    NotMark(c) && !IsSpace(c)
  }

  function Unmarked(s: string): string {
    Keep(NotMark, s)
  }

  function Letters(s: string): string {
    Keep(IsLetter, s)
  }

  lemma {:induction false} KeepAppend(p: char -> bool, a: string, b: string)
    ensures Keep(p, a + b) == Keep(p, a) + Keep(p, b)
  {
    if a == "" {
      assert a + b == b;
    } else {
      KeepAppend(p, a[1..], b);
      assert (a + b)[1..] == a[1..] + b && (a + b)[0] == a[0];
      Reassociate(if p(a[0]) then [a[0]] else "", Keep(p, a[1..]), Keep(p, b));
    }
  }

  lemma {:induction false} KeepNothing(p: char -> bool, s: string)
    requires forall i :: 0 <= i < |s| ==> !p(s[i])
    ensures Keep(p, s) == ""
  {
    if s != "" {
      KeepNothing(p, s[1..]);
    }
  }

  lemma {:induction false} KeepAll(p: char -> bool, s: string)
    requires forall i :: 0 <= i < |s| ==> p(s[i])
    ensures Keep(p, s) == s
  {
    if s != "" {
      KeepAll(p, s[1..]);
    }
  }

  lemma {:induction false} LettersOfUnmarked(s: string)
    ensures Letters(Unmarked(s)) == Letters(s)
  {
    if s != "" {
      var first, rest := if NotMark(s[0]) then [s[0]] else "", s[1..];
      LettersOfUnmarked(rest);
      KeepAppend(IsLetter, first, Unmarked(rest));
      OneLetter(s[0]);
    }
  }

  lemma KeepOne(p: char -> bool, c: char)
    ensures Keep(p, [c]) == if p(c) then [c] else ""
  {
    assert [c][1..] == "" && Keep(p, "") == "";
  }

  lemma OneLetter(c: char)
    ensures Letters(if NotMark(c) then [c] else "") == if IsLetter(c) then [c] else ""
  {
    KeepOne(IsLetter, c);
    assert Letters("") == "";
  }

  // ----- the text outside of tags

  /** What stands outside of tags, without marks. */
  function Visible(s: string): string
    decreases |s|
  {
    if s == "" then "" else Shown(s[0]) + Visible(s[Passed(s)..])
  }

  function Shown(c: char): string {
    if c != '<' && NotMark(c) then [c] else ""
  }

  /** The length of the tag at the start of the text, or one character. */
  function Passed(s: string): (n: nat)
    requires s != ""
    ensures 1 <= n <= |s|
  {
    if s[0] == '<' then |TagAt(s)| else 1
  }

  lemma ClosedFrom(a: string, n: nat)
    requires n <= |a| && Closed(a)
    ensures Closed(a[n..])
  {
    forall i | 0 <= i < |a[n..]| && a[n..][i] == '<'
      ensures '>' in a[n..][i..]
    {
      assert a[n..][i..] == a[n + i..];
    }
  }

  lemma PassedPrefix(a: string, b: string)
    requires a != "" && Closed(a)
    ensures (a + b)[0] == a[0] && Passed(a + b) == Passed(a) && (a + b)[Passed(a)..] == a[Passed(a)..] + b
  {
    if a[0] == '<' {
      assert a[0..] == a;
      TagAtPrefix(a, b);
    }
  }

  lemma {:induction false} VisibleAppend(a: string, b: string)
    requires Closed(a)
    ensures Visible(a + b) == Visible(a) + Visible(b)
    decreases |a|
  {
    if a == "" {
      assert a + b == b;
    } else {
      ClosedFrom(a, Passed(a));
      VisibleAppend(a[Passed(a)..], b);
      PassedPrefix(a, b);
      Reassociate(Shown(a[0]), Visible(a[Passed(a)..]), Visible(b));
    }
  }

  lemma {:induction false} VisiblePlain(s: string)
    requires '<' !in s
    ensures Visible(s) == Unmarked(s)
  {
    if s != "" {
      assert s[0] in s;
      VisiblePlain(s[1..]);
    }
  }

  lemma VisibleTag(t: string)
    requires TagShape(t)
    ensures Visible(t) == "" && Closed(t)
  {
    TagIsItself(t);
    assert RunWhile(NotClosing, t) == |t| - 1;
    assert t[|t|..] == "";
  }

  lemma VisibleBetween(open: string, content: string, close: string)
    requires TagShape(open) && TagShape(close) && Closed(content)
    ensures Visible(open + content + close) == Visible(content) && Closed(open + content + close)
  {
    VisibleTag(open);
    VisibleTag(close);
    ClosedAppend(open, content);
    ClosedAppend(open + content, close);
    VisibleAppend(open, content);
    VisibleAppend(open + content, close);
  }

  // ----- the inline passes

  lemma VisibleSplit(s: string, n: nat)
    requires n <= |s| && Closed(s[..n])
    ensures Visible(s) == Visible(s[..n]) + Visible(s[n..])
  {
    VisibleAppend(s[..n], s[n..]);
    assert s[..n] + s[n..] == s;
  }

  lemma Invisible(marks: string)
    requires forall i :: 0 <= i < |marks| ==> !NotMark(marks[i])
    ensures Visible(marks) == "" && Closed(marks)
  {
    NoTags(marks);
    VisiblePlain(marks);
    KeepNothing(NotMark, marks);
  }

  /** Marks are not visible, so what they enclose is all there is to see of a span. */
  lemma VisibleMarks(mark: char, width: nat, s: string)
    requires (mark == '`' || mark == '*') && 1 <= width <= 2 && Marked(mark, width, s)
    ensures Visible(s) == Visible(s[width..])
  {
    assert forall i :: 0 <= i < width ==> s[..width][i] == mark;
    Invisible(s[..width]);
    VisibleSplit(s, width);
  }

  lemma VisiblePrefix(tags: set<string>, s: string, n: nat)
    requires WellShaped(tags) && EndRight(tags) && OnlyTags(tags, s)
    requires n <= |s| && (n < |s| ==> s[n] == '`' || s[n] == '*')
    ensures Visible(s) == Visible(s[..n]) + Visible(s[n..]) && Closed(s[..n])
  {
    SafePrefix(tags, s, n);
    SafeIsClosed(tags, s[..n]);
    VisibleSplit(s, n);
  }

  lemma VisibleSpan(tags: set<string>, mark: char, width: nat, s: string) returns (content: string, rest: string)
    requires (mark == '`' || mark == '*') && 1 <= width <= 2 && SpanLength(mark, width, s) > 0
    requires WellShaped(tags) && EndRight(tags) && OnlyTags(tags, s)
    ensures var inside := SpanLength(mark, width, s);
      content == s[width..width + inside] && rest == s[2 * width + inside..]
    ensures Visible(s) == Visible(content) + Visible(rest) && Closed(content)
  {
    var tail, content', behind, rest' := SpanParts(mark, width, s);
    content, rest := content', rest';
    VisibleMarks(mark, width, s);
    SafeSuffix(tags, s, width);
    assert tail[|content|] == behind[0];
    VisiblePrefix(tags, tail, |content|);
    VisibleMarks(mark, width, behind);
  }

  /** The first piece of the output shows what the characters that it stands for show. */
  lemma VisiblePiece(tags: set<string>, mark: char, width: nat, open: string, close: string, s: string)
    requires (mark == '`' || mark == '*') && 1 <= width <= 2 && s != ""
    requires WellShaped(tags) && EndRight(tags) && OnlyTags(tags, s) && TagShape(open) && TagShape(close)
    ensures var piece := Piece(mark, width, open, close, s);
      Closed(piece) && Visible(s) == Visible(piece) + Visible(s[Consumed(mark, width, s)..])
  {
    if Plain(mark, s) > 0 {
      VisiblePrefix(tags, s, Plain(mark, s));
    } else if SpanLength(mark, width, s) > 0 {
      var content, rest := SpanPieceParts(tags, mark, width, open, close, s);
      VisibleBetween(open, content, close);
    } else {
      VisibleSingle(mark, s);
    }
  }

  lemma SpanPieceParts(tags: set<string>, mark: char, width: nat, open: string, close: string, s: string)
    returns (content: string, rest: string)
    requires (mark == '`' || mark == '*') && 1 <= width <= 2 && s != ""
    requires WellShaped(tags) && EndRight(tags) && OnlyTags(tags, s)
    requires Plain(mark, s) == 0 && SpanLength(mark, width, s) > 0
    ensures Piece(mark, width, open, close, s) == open + content + close && rest == s[Consumed(mark, width, s)..]
    ensures Visible(s) == Visible(content) + Visible(rest) && Closed(content)
  {
    content, rest := VisibleSpan(tags, mark, width, s);
    SpanPiece(mark, width, open, close, s);
  }

  lemma VisibleSingle(mark: char, s: string)
    requires (mark == '`' || mark == '*') && s != "" && s[0] == mark
    ensures Visible([s[0]]) == "" && Closed([s[0]]) && Visible(s) == Visible(s[1..])
  {
    Invisible([mark]);
    VisibleMarks(mark, 1, s);
  }

  /** A pass changes nothing about the visible text. */
  lemma {:induction false} VisibleSpans(tags: set<string>, mark: char, width: nat, open: string, close: string,
      s: string)
    requires (mark == '`' || mark == '*') && 1 <= width <= 2
    requires WellShaped(tags) && EndRight(tags) && OnlyTags(tags, s) && TagShape(open) && TagShape(close)
    ensures Visible(Spans(mark, width, open, close, s)) == Visible(s)
    decreases |s|
  {
    if s != "" {
      var rest := s[Consumed(mark, width, s)..];
      VisiblePiece(tags, mark, width, open, close, s);
      SafeSuffix(tags, s, Consumed(mark, width, s));
      VisibleSpans(tags, mark, width, open, close, rest);
      VisibleAppend(Piece(mark, width, open, close, s), Spans(mark, width, open, close, rest));
    }
  }

  lemma {:induction false} EscapeAppend(a: string, b: string)
    ensures EscapeEach(a + b) == EscapeEach(a) + EscapeEach(b)
  {
    if a == "" {
      assert a + b == b;
    } else {
      EscapeAppend(a[1..], b);
      FirstStays(a, b);
      Reassociate(EscapeChar(a[0]), EscapeEach(a[1..]), EscapeEach(b));
    }
  }

  lemma FirstStays(a: string, b: string)
    requires a != ""
    ensures (a + b)[0] == a[0] && (a + b)[1..] == a[1..] + b
  {
  }

  /** Entities contain no mark, so it does not matter whether marks go before or after escaping. */
  lemma {:induction false} UnmarkedEscape(s: string)
    ensures Unmarked(EscapeEach(s)) == EscapeEach(Unmarked(s))
  {
    if s != "" {
      UnmarkedEscape(s[1..]);
      KeepAppend(NotMark, EscapeChar(s[0]), EscapeEach(s[1..]));
      EscapeAppend(if NotMark(s[0]) then [s[0]] else "", Unmarked(s[1..]));
      UnmarkedEntity(s[0]);
    }
  }

  lemma UnmarkedEntity(c: char)
    ensures Unmarked(EscapeChar(c)) == EscapeEach(if NotMark(c) then [c] else "")
  {
    if NotMark(c) {
      EscapeOne(c);
      assert forall i :: 0 <= i < |EscapeChar(c)| ==> NotMark(EscapeChar(c)[i]);
      KeepAll(NotMark, EscapeChar(c));
    } else {
      KeepOne(NotMark, c);
      assert EscapeEach("") == "";
    }
  }

  lemma EscapeOne(c: char)
    ensures EscapeEach([c]) == EscapeChar(c)
  {
    assert [c][1..] == "" && EscapeEach("") == "";
  }

  /** What is visible of formatted text is the escaped text without its marks. */
  lemma VisibleInline(text: string)
    ensures Visible(Inline(text)) == EscapeEach(Unmarked(text))
  {
    var tags, e := CODE + STRONG + EM, EscapeHtml(text);
    Shapes();
    NoMarksInside();
    CodePass(text);
    NoBracketIsSafe(tags, e);
    SpansAreSafe(tags, '`', 1, "<code>", "</code>", e);
    SpansAreSafe(tags, '*', 2, "<strong>", "</strong>", AfterCode(text));
    VisibleSpans(tags, '`', 1, "<code>", "</code>", e);
    VisibleSpans(tags, '*', 2, "<strong>", "</strong>", AfterCode(text));
    VisibleSpans(tags, '*', 1, "<em>", "</em>", AfterBold(text));
    InlineIsItalic(text);
    VisiblePlain(e);
    EscapeIsOnePass(text);
    UnmarkedEscape(text);
  }

  /** Formatting keeps every character of the text but the marks, in order. */
  lemma InlineKeepsText(text: string)
    ensures Unescape(Visible(FormatInline(EscapeHtml(text)))) == Unmarked(text)
  {
    VisibleInline(text);
    UnescapeEach(Unmarked(text));
  }

  // ----- blocks

  function Escaped(text: string): string {
    EscapeEach(Unmarked(text))
  }

  lemma EscapedAppend(a: string, b: string)
    ensures Escaped(a + b) == Escaped(a) + Escaped(b)
  {
    KeepAppend(NotMark, a, b);
    EscapeAppend(Unmarked(a), Unmarked(b));
  }

  /** The text that a block shows. */
  function BlockText(lines: seq<string>, i: nat): string
    requires i < |lines|
  {
    var run := lines[i..NextIndex(lines, i)];
    if Blank(lines[i]) then ""
    else if HeadingText(lines[i]).Some? then Trim(HeadingText(lines[i]).value)
    else if UnorderedItem(lines[i]) || OrderedItem(lines[i]) then Concat(Each(ItemText, run))
    else JoinWithSpaces(Each(Trim, run))
  }

  lemma TagsEndRight()
    ensures EndRight(Tags()) && forall t :: t in Tags() ==> TagShape(t)
  {
    Shapes();
    HeadingShapes();
    ListShapes();
    assert Tags() == CODE + STRONG + EM + HEADINGS + LISTS;
  }

  const HEADINGS: set<string> := {"<p>", "</p>", "<h1>", "</h1>", "<h2>", "</h2>", "<h3>", "</h3>"}
  const LISTS: set<string> := {"<ul>", "</ul>", "<ol>", "</ol>", "<li>", "</li>"}

  lemma HeadingShapes()
    ensures forall t :: t in HEADINGS ==> TagShape(t)
  {
  }

  lemma ListShapes()
    ensures forall t :: t in LISTS ==> TagShape(t)
  {
  }

  lemma VisibleWrapped(open: string, text: string, close: string)
    requires open in Tags() && close in Tags()
    ensures Visible(open + Inline(text) + close) == Escaped(text) && Closed(open + Inline(text) + close)
  {
    TagsEndRight();
    InlineIsSafe(text);
    SafeIsClosed(Tags(), Inline(text));
    VisibleBetween(open, Inline(text), close);
    VisibleInline(text);
  }

  lemma {:induction false} VisibleItems(run: seq<string>)
    ensures Visible(Concat(Each(ListItem, run))) == Escaped(Concat(Each(ItemText, run)))
    ensures Closed(Concat(Each(ListItem, run)))
  {
    if run != [] {
      var n := |run| - 1;
      VisibleItems(run[..n]);
      VisibleWrapped("<li>", ItemText(run[n]), "</li>");
      ConcatEach(ListItem, run);
      ConcatEach(ItemText, run);
      VisibleNext(Concat(Each(ListItem, run[..n])), ListItem(run[n]),
        Concat(Each(ItemText, run[..n])), ItemText(run[n]));
    }
  }

  lemma ConcatEach(f: string -> string, run: seq<string>)
    requires run != []
    ensures var n := |run| - 1;
      Concat(Each(f, run)) == Concat(Each(f, run[..n])) + f(run[n])
  {
    assert Each(f, run)[..|run| - 1] == Each(f, run[..|run| - 1]);
  }

  lemma VisibleNext(a: string, b: string, x: string, y: string)
    requires Closed(a) && Closed(b) && Visible(a) == Escaped(x) && Visible(b) == Escaped(y)
    ensures Closed(a + b) && Visible(a + b) == Escaped(x + y)
  {
    VisibleAppend(a, b);
    ClosedAppend(a, b);
    EscapedAppend(x, y);
  }

  lemma VisibleList(run: seq<string>, open: string, close: string)
    requires open in Tags() && close in Tags()
    ensures var html := open + Concat(Each(ListItem, run)) + close;
      Visible(html) == Escaped(Concat(Each(ItemText, run))) && Closed(html)
  {
    TagsEndRight();
    VisibleItems(run);
    VisibleBetween(open, Concat(Each(ListItem, run)), close);
  }

  lemma VisibleBlock(lines: seq<string>, i: nat)
    requires i < |lines|
    ensures Visible(Block(lines, i)) == Escaped(BlockText(lines, i)) && Closed(Block(lines, i))
  {
    var run := lines[i..NextIndex(lines, i)];
    if Blank(lines[i]) {
      assert Escaped("") == "";
    } else if HeadingText(lines[i]).Some? {
      HeadingTags(Hashes(lines[i]));
      VisibleWrapped("<h" + Decimal(Hashes(lines[i])) + ">", Trim(HeadingText(lines[i]).value),
        "</h" + Decimal(Hashes(lines[i])) + ">");
    } else if UnorderedItem(lines[i]) {
      VisibleList(run, "<ul>", "</ul>");
    } else if OrderedItem(lines[i]) {
      VisibleList(run, "<ol>", "</ol>");
    } else {
      VisibleWrapped("<p>", JoinWithSpaces(Each(Trim, run)), "</p>");
    }
  }

  // ----- the whole document

  /** The text of a line: what stands behind its heading mark or list marker, if it has one. */
  function LineText(line: string): string {
    if HeadingText(line).Some? then HeadingText(line).value else ItemText(line)
  }

  /** What may stand in front of a line's text, besides white space. */
  ghost predicate IsMarker(line: string, marker: string) {
    if HeadingText(line).Some? then 1 <= |marker| <= 3 && forall i :: 0 <= i < |marker| ==> marker[i] == '#'
    else if UnorderedItem(line) then marker == "-" || marker == "*"
    else if OrderedItem(line) then
      |marker| >= 2 && marker[|marker| - 1] == '.' && forall i :: 0 <= i < |marker| - 1 ==> '0' <= marker[i] <= '9'
    else marker == ""
  }

  /** A line is its marker, white space, and its text; without a marker it is its text. */
  lemma LineTextExactly(line: string) returns (marker: string, gap: string)
    ensures line == marker + gap + LineText(line) && IsMarker(line, marker)
    ensures forall i :: 0 <= i < |gap| ==> IsSpace(gap[i])
    ensures gap == "" <==> marker == ""
  {
    if HeadingText(line).Some? {
      marker, gap := HeadingParts(line);
    } else if UnorderedItem(line) {
      marker, gap := MarkerAndGap(line, 1);
    } else if OrderedItem(line) {
      marker, gap := MarkerAndGap(line, Digits(line) + 1);
    } else {
      marker, gap := "", "";
    }
  }

  /** A line cut behind its first `k` characters and the white space that follows. */
  lemma MarkerAndGap(line: string, k: nat) returns (marker: string, gap: string)
    requires k < |line| && IsSpace(line[k])
    ensures |marker| == k && marker == line[..k] && gap != "" && forall i :: 0 <= i < |gap| ==> IsSpace(gap[i])
    ensures line == marker + gap + line[k..][Spaces(line[k..])..]
  {
    var behind := line[k..];
    assert behind[0] == line[k];
    marker, gap := line[..k], behind[..Spaces(behind)];
    ThreeParts(line, k, Spaces(behind));
  }

  lemma ThreeParts(line: string, k: nat, n: nat)
    requires k <= |line| && n <= |line[k..]|
    ensures line == line[..k] + line[k..][..n] + line[k..][n..]
  {
  }

  lemma HeadingParts(line: string) returns (marker: string, gap: string)
    requires HeadingText(line).Some?
    ensures line == marker + gap + HeadingText(line).value && |marker| == Hashes(line) && gap != ""
    ensures 1 <= |marker| <= 3 && forall i :: 0 <= i < |marker| ==> marker[i] == '#'
    ensures forall i :: 0 <= i < |gap| ==> IsSpace(gap[i])
  {
    var k := Hashes(line);
    var behind := line[k..];
    if behind[Spaces(behind)..] != "" {
      marker, gap := MarkerAndGap(line, k);
    } else {
      marker, gap := line[..k], behind[..|behind| - 1];
      assert behind[|behind| - 1..] == [behind[|behind| - 1]];
      ThreeParts(line, k, |behind| - 1);
    }
  }

  /** What the heading pattern asks for: `n` hashes, `m` white-space characters, and a rest of one line. */
  ghost predicate MatchesHeading(line: string, n: nat, m: nat) {
    && 1 <= n <= 3 && m >= 1 && n + m < |line|
    && (forall i :: 0 <= i < n ==> line[i] == '#')
    && (forall i :: n <= i < n + m ==> IsSpace(line[i]))
    && forall i :: n + m <= i < |line| ==> !IsLineEnd(line[i])
  }

  /** A line is a heading exactly if the pattern can be matched in some way. */
  lemma HeadingExactly(line: string)
    ensures HeadingText(line).Some? <==> exists n: nat, m: nat :: MatchesHeading(line, n, m)
  {
    if HeadingText(line).Some? {
      var hashes, gap := HeadingParts(line);
      HeadingIsOneLine(line);
      PartsMatch(line, hashes, gap, HeadingText(line).value);
    }
    if n: nat, m: nat :| MatchesHeading(line, n, m) {
      MatchIsHeading(line, n, m);
    }
  }

  lemma HeadingIsOneLine(line: string)
    requires HeadingText(line).Some?
    ensures HeadingText(line).value != ""
    ensures forall i :: 0 <= i < |HeadingText(line).value| ==> !IsLineEnd(HeadingText(line).value[i])
  {
  }

  lemma PartsMatch(line: string, hashes: string, gap: string, rest: string)
    requires line == hashes + gap + rest && 1 <= |hashes| <= 3 && gap != "" && rest != ""
    requires forall i :: 0 <= i < |hashes| ==> hashes[i] == '#'
    requires forall i :: 0 <= i < |gap| ==> IsSpace(gap[i])
    requires forall i :: 0 <= i < |rest| ==> !IsLineEnd(rest[i])
    ensures MatchesHeading(line, |hashes|, |gap|)
  {
    var n, m := |hashes|, |gap|;
    assert forall i :: 0 <= i < n ==> line[i] == hashes[i];
    assert forall i :: n <= i < n + m ==> line[i] == gap[i - n];
    assert forall i :: n + m <= i < |line| ==> line[i] == rest[i - n - m];
  }

  lemma MatchIsHeading(line: string, n: nat, m: nat)
    requires MatchesHeading(line, n, m)
    ensures HeadingText(line).Some?
  {
    MatchedParts(line, n, m);
  }

  lemma MatchedParts(line: string, n: nat, m: nat)
    requires MatchesHeading(line, n, m)
    ensures Hashes(line) == n && IsSpace(line[n])
    ensures
      var behind := line[n..];
      var rest := behind[Spaces(behind)..];
      && (forall i :: 0 <= i < |rest| ==> !IsLineEnd(rest[i]))
      && |behind| >= 2 && !IsLineEnd(behind[|behind| - 1])
  {
    var behind := line[n..];
    assert forall i :: 0 <= i < |behind| ==> behind[i] == line[n + i];
    var k := Spaces(behind);
    assert k >= m;
    forall i | 0 <= i < |behind[k..]|
      ensures !IsLineEnd(behind[k..][i])
    {
      assert behind[k..][i] == line[n + k + i];
    }
  }

  /** The level of a heading is the number of its hashes. */
  lemma HeadingLevel(lines: seq<string>, i: nat) returns (hashes: string, gap: string)
    requires i < |lines| && !Blank(lines[i]) && HeadingText(lines[i]).Some?
    ensures lines[i] == hashes + gap + HeadingText(lines[i]).value && 1 <= |hashes| <= 3 && gap != ""
    ensures forall k :: 0 <= k < |hashes| ==> hashes[k] == '#'
    ensures Block(lines, i) ==
      "<h" + Decimal(|hashes|) + ">" + Inline(Trim(HeadingText(lines[i]).value)) + ("</h" + Decimal(|hashes|) + ">")
  {
    hashes, gap := HeadingParts(lines[i]);
  }

  lemma {:induction false} ConcatSpells(parts: seq<string>)
    ensures Spells(Concat(parts), parts, "")
  {
    if |parts| == 1 {
      assert parts[..0] == [] && Concat(parts) == "" + parts[0] == parts[0];
    } else if parts != [] {
      var n := |parts| - 1;
      ConcatSpells(parts[..n]);
      SpellsMore(Concat(parts[..n]), parts[..n], "", parts[n]);
      assert parts[..n] + [parts[n]] == parts && Concat(parts[..n]) + "" + parts[n] == Concat(parts);
    }
  }

  lemma {:induction false} JoinSpells(parts: seq<string>)
    ensures Spells(JoinWithSpaces(parts), parts, " ")
  {
    if |parts| > 1 {
      var n := |parts| - 1;
      JoinSpells(parts[..n]);
      SpellsMore(JoinWithSpaces(parts[..n]), parts[..n], " ", parts[n]);
      assert parts[..n] + [parts[n]] == parts;
    }
  }

  /** The lines from `i` to `j` satisfy `p`, and the line behind them does not. */
  ghost predicate IsRun(p: string -> bool, lines: seq<string>, i: nat, j: nat) {
    i < j <= |lines| && (forall k :: i <= k < j ==> p(lines[k])) && (j < |lines| ==> !p(lines[j]))
  }

  /** A list has one item for each line of its run, in order. */
  ghost predicate IsList(block: string, open: string, close: string, run: seq<string>, parts: seq<string>,
      body: string)
  {
    && block == open + body + close && Spells(body, parts, "") && |parts| == |run|
    && forall k :: 0 <= k < |run| ==> parts[k] == "<li>" + Inline(LineText(run[k])) + "</li>"
  }

  /** A paragraph joins the trimmed lines of its run with single spaces. */
  ghost predicate IsParagraph(block: string, run: seq<string>, parts: seq<string>, body: string) {
    && block == "<p>" + Inline(body) + "</p>" && Spells(body, parts, " ") && |parts| == |run|
    && forall k :: 0 <= k < |run| ==> parts[k] == Trim(run[k])
  }

  /** What a block that is no heading is made of. */
  lemma BlockExactly(lines: seq<string>, i: nat) returns (parts: seq<string>, body: string)
    requires i < |lines| && !Blank(lines[i]) && HeadingText(lines[i]).None? && !Stuck(lines[i])
    ensures
      var j := NextIndex(lines, i);
      var block, run := Block(lines, i), lines[i..j];
      if UnorderedItem(lines[i]) then
        IsRun(UnorderedItem, lines, i, j) && IsList(block, "<ul>", "</ul>", run, parts, body)
      else if OrderedItem(lines[i]) then
        IsRun(OrderedItem, lines, i, j) && IsList(block, "<ol>", "</ol>", run, parts, body)
      else IsRun(ParagraphLine, lines, i, j) && IsParagraph(block, run, parts, body)
  {
    var run := lines[i..NextIndex(lines, i)];
    ProgressExactly(lines, i);
    ItemsHaveNoHeading(lines[i]);
    if UnorderedItem(lines[i]) {
      RunIsMaximal(UnorderedItem, lines, i);
      parts, body := ListParts(run, "<ul>", "</ul>");
    } else if OrderedItem(lines[i]) {
      RunIsMaximal(OrderedItem, lines, i);
      parts, body := ListParts(run, "<ol>", "</ol>");
    } else {
      RunIsMaximal(ParagraphLine, lines, i);
      parts, body := ParagraphParts(run);
    }
  }

  lemma RunIsMaximal(p: string -> bool, lines: seq<string>, i: nat)
    requires i < |lines| && p(lines[i])
    ensures IsRun(p, lines, i, RunEnd(p, lines, i))
  {
  }

  lemma ListParts(run: seq<string>, open: string, close: string) returns (parts: seq<string>, body: string)
    requires forall k :: 0 <= k < |run| ==> UnorderedItem(run[k]) || OrderedItem(run[k])
    ensures IsList(open + Concat(Each(ListItem, run)) + close, open, close, run, parts, body)
  {
    parts := Each(ListItem, run);
    body := Concat(parts);
    ConcatSpells(parts);
    forall k | 0 <= k < |run|
      ensures parts[k] == "<li>" + Inline(LineText(run[k])) + "</li>"
    {
      assert parts[k] == ListItem(run[k]);
      ItemExactly(run[k]);
    }
  }

  lemma ItemExactly(line: string)
    requires UnorderedItem(line) || OrderedItem(line)
    ensures ListItem(line) == "<li>" + Inline(LineText(line)) + "</li>"
  {
    ItemsHaveNoHeading(line);
  }

  lemma ParagraphParts(run: seq<string>) returns (parts: seq<string>, body: string)
    ensures IsParagraph("<p>" + Inline(JoinWithSpaces(Each(Trim, run))) + "</p>", run, parts, body)
  {
    parts := Each(Trim, run);
    body := JoinWithSpaces(parts);
    JoinSpells(parts);
  }

  function LettersOf(lines: seq<string>): string {
    Letters(Concat(Each(LineText, lines)))
  }

  lemma {:induction false} ConcatAppend(a: seq<string>, b: seq<string>)
    ensures Concat(a + b) == Concat(a) + Concat(b)
  {
    if b == [] {
      assert a + b == a;
    } else {
      var n := |b| - 1;
      ConcatAppend(a, b[..n]);
      assert (a + b)[..|a + b| - 1] == a + b[..n] && (a + b)[|a + b| - 1] == b[n];
      Reassociate(Concat(a), Concat(b[..n]), b[n]);
    }
  }

  lemma LettersOfAppend(a: seq<string>, b: seq<string>)
    ensures LettersOf(a + b) == LettersOf(a) + LettersOf(b)
  {
    assert Each(LineText, a + b) == Each(LineText, a) + Each(LineText, b);
    ConcatAppend(Each(LineText, a), Each(LineText, b));
    KeepAppend(IsLetter, Concat(Each(LineText, a)), Concat(Each(LineText, b)));
  }

  lemma LettersOfOne(line: string)
    ensures LettersOf([line]) == Letters(LineText(line))
  {
    var texts := Each(LineText, [line]);
    assert texts == [LineText(line)] && texts[..|texts| - 1] == [];
    assert Concat(texts) == "" + LineText(line) == LineText(line);
  }

  lemma {:induction false} LettersOfTrimEnd(s: string)
    ensures Letters(TrimEnd(s)) == Letters(s)
  {
    if s != "" && IsSpace(s[|s| - 1]) {
      var n := |s| - 1;
      LettersOfTrimEnd(s[..n]);
      KeepAppend(IsLetter, s[..n], [s[n]]);
      KeepOne(IsLetter, s[n]);
      assert s == s[..n] + [s[n]];
    }
  }

  /** White space at the ends has no letters. */
  lemma LettersOfTrim(s: string)
    ensures Letters(Trim(s)) == Letters(s)
  {
    var n := RunWhile(IsSpace, s);
    LettersOfTrimEnd(s[n..]);
    KeepNothing(IsLetter, s[..n]);
    KeepAppend(IsLetter, s[..n], s[n..]);
    assert s == s[..n] + s[n..];
  }

  lemma {:induction false} LettersOfItems(run: seq<string>)
    requires forall k :: 0 <= k < |run| ==> LineText(run[k]) == ItemText(run[k])
    ensures Letters(Concat(Each(ItemText, run))) == LettersOf(run)
  {
    assert Each(ItemText, run) == Each(LineText, run);
  }

  lemma {:induction false} LettersOfJoin(run: seq<string>)
    requires forall k :: 0 <= k < |run| ==> LineText(run[k]) == run[k]
    ensures Letters(JoinWithSpaces(Each(Trim, run))) == LettersOf(run)
  {
    if run != [] {
      var n := |run| - 1;
      var trimmed := Each(Trim, run);
      assert trimmed[..n] == Each(Trim, run[..n]) && run == run[..n] + [run[n]];
      LettersOfJoin(run[..n]);
      LettersOfAppend(run[..n], [run[n]]);
      LettersOfOne(run[n]);
      LettersOfTrim(run[n]);
      JoinedLetters(JoinWithSpaces(trimmed[..n]), trimmed[n]);
      assert JoinWithSpaces([]) == "" && Letters("") == "";
    }
  }

  lemma JoinedLetters(a: string, b: string)
    ensures Letters(a + " " + b) == Letters(a) + Letters(b)
  {
    KeepAppend(IsLetter, a + " ", b);
    KeepAppend(IsLetter, a, " ");
    KeepOne(IsLetter, ' ');
  }

  /** A line with a list marker or of a paragraph carries no heading mark. */
  lemma ItemsHaveNoHeading(line: string)
    requires UnorderedItem(line) || OrderedItem(line) || ParagraphLine(line)
    ensures HeadingText(line) == None
    ensures ParagraphLine(line) ==> LineText(line) == line
  {
    if HeadingMark(line) {
      MarkedLineIsNotBlank(line);
    }
  }

  lemma BlankHasNoLetters(line: string)
    requires Blank(line)
    ensures Letters(LineText(line)) == ""
  {
    if HeadingMark(line) {
      MarkedLineIsNotBlank(line);
    }
    BlankIsSpace(line);
    var n := ItemTextIsSuffix(line);
    KeepNothing(IsLetter, line[n..]);
  }

  lemma BlankIsSpace(line: string)
    requires Blank(line)
    ensures forall i :: 0 <= i < |line| ==> IsSpace(line[i])
  {
    var n := RunWhile(IsSpace, line);
    if n < |line| {
      TrimEndKeepsFirst(line[n..]);
    }
  }

  lemma ItemTextIsSuffix(line: string) returns (n: nat)
    ensures n <= |line| && ItemText(line) == line[n..]
  {
    n := 0;
    if UnorderedItem(line) || OrderedItem(line) {
      var k := if UnorderedItem(line) then 1 else Digits(line) + 1;
      n := k + Spaces(line[k..]);
      assert line[k..][Spaces(line[k..])..] == line[n..];
    }
  }

  /** A block shows the letters of its lines. */
  lemma BlockLetters(lines: seq<string>, i: nat)
    requires i < |lines| && !Stuck(lines[i])
    ensures Letters(BlockText(lines, i)) == LettersOf(lines[i..NextIndex(lines, i)])
  {
    var run := lines[i..NextIndex(lines, i)];
    if Blank(lines[i]) || HeadingText(lines[i]).Some? {
      assert run == [lines[i]];
      LettersOfOne(lines[i]);
      if Blank(lines[i]) {
        BlankHasNoLetters(lines[i]);
      } else {
        LettersOfTrim(HeadingText(lines[i]).value);
      }
    } else {
      forall k | 0 <= k < |run|
        ensures HeadingText(run[k]) == None && (ParagraphLine(run[k]) ==> LineText(run[k]) == run[k])
      {
        ItemsHaveNoHeading(run[k]);
      }
      if UnorderedItem(lines[i]) || OrderedItem(lines[i]) {
        LettersOfItems(run);
      } else {
        LettersOfJoin(run);
      }
    }
  }

  ghost function AllText(lines: seq<string>, i: nat): string
    requires NoneStuck(lines) && i <= |lines|
    decreases |lines| - i
  {
    if i == |lines| then ""
    else
      ProgressExactly(lines, i);
      BlockText(lines, i) + AllText(lines, NextIndex(lines, i))
  }

  lemma {:induction false} VisibleHtml(lines: seq<string>, i: nat)
    requires NoneStuck(lines) && i <= |lines|
    ensures Visible(Html(lines, i)) == Escaped(AllText(lines, i))
    decreases |lines| - i
  {
    if i == |lines| {
      assert Escaped("") == "";
    } else {
      var j := NextIndex(lines, i);
      ProgressExactly(lines, i);
      VisibleBlock(lines, i);
      VisibleHtml(lines, j);
      VisibleAppend(Block(lines, i), Html(lines, j));
      EscapedAppend(BlockText(lines, i), AllText(lines, j));
    }
  }

  lemma {:induction false} LettersOfAll(lines: seq<string>, i: nat)
    requires NoneStuck(lines) && i <= |lines|
    ensures Letters(AllText(lines, i)) == LettersOf(lines[i..])
    decreases |lines| - i
  {
    if i < |lines| {
      var j := NextIndex(lines, i);
      ProgressExactly(lines, i);
      BlockLetters(lines, i);
      LettersOfAll(lines, j);
      KeepAppend(IsLetter, BlockText(lines, i), AllText(lines, j));
      LettersOfSplit(lines, i, j);
    }
  }

  lemma LettersOfSplit(lines: seq<string>, i: nat, j: nat)
    requires i <= j <= |lines|
    ensures LettersOf(lines[i..]) == LettersOf(lines[i..j]) + LettersOf(lines[j..])
  {
    LettersOfAppend(lines[i..j], lines[j..]);
    assert lines[i..] == lines[i..j] + lines[j..];
  }

  /**
   Rendering loses no letter, adds none and moves none: the visible text of the HTML, with its
   entities read back, has exactly the letters of the lines, line by line.
   */
  lemma RenderingKeepsText(lines: seq<string>)
    requires NoneStuck(lines)
    ensures Letters(Unescape(Visible(Html(lines, 0)))) == LettersOf(lines)
  {
    VisibleHtml(lines, 0);
    UnescapeEach(Unmarked(AllText(lines, 0)));
    LettersOfUnmarked(AllText(lines, 0));
    LettersOfAll(lines, 0);
    assert lines[0..] == lines;
  }

  // ----- what becomes of marks

  lemma NoMarkStays(mark: char, width: nat, open: string, close: string, s: string)
    requires 1 <= width <= 2 && mark !in s
    ensures Spans(mark, width, open, close, s) == s
  {
    if s != "" {
      PlainFirst(mark, width, open, close, s, "");
      assert s + "" == s;
    }
  }

  lemma PlainInFront(mark: char, width: nat, open: string, close: string, plain: string, rest: string)
    requires 1 <= width <= 2 && mark !in plain && (rest != "" ==> rest[0] == mark)
    ensures Spans(mark, width, open, close, plain + rest) == plain + Spans(mark, width, open, close, rest)
  {
    if plain == "" {
      assert plain + rest == rest;
    } else {
      PlainFirst(mark, width, open, close, plain, rest);
    }
  }

  lemma SpanShape(mark: char, marks: string, s: string, content: string, rest: string)
    requires marks == [mark] || marks == [mark, mark]
    requires content != "" && mark !in content && s == marks + (content + (marks + rest))
    ensures s[0] == mark && Marked(mark, |marks|, s) && s[|marks|..] == content + (marks + rest)
    ensures s[|marks| + |content|..] == marks + rest && s[|marks|..|marks| + |content|] == content
    ensures Marked(mark, |marks|, marks + rest) && s[2 * |marks| + |content|..] == rest
  {
  }

  lemma SpanInFront(mark: char, marks: string, open: string, close: string, content: string, rest: string)
    requires (marks == [mark] || marks == [mark, mark]) && content != "" && mark !in content
    ensures Spans(mark, |marks|, open, close, marks + (content + (marks + rest)))
      == open + content + close + Spans(mark, |marks|, open, close, rest)
  {
    var s := marks + (content + (marks + rest));
    SpanShape(mark, marks, s, content, rest);
    PlainIs(mark, s, 0);
    PlainIs(mark, s[|marks|..], |content|);
    assert SpanLength(mark, |marks|, s) == |content|;
    SpanPiece(mark, |marks|, open, close, s);
    SpansUnfold(mark, |marks|, open, close, s);
  }

  lemma SpansUnfold(mark: char, width: nat, open: string, close: string, s: string)
    requires 1 <= width <= 2 && s != ""
    ensures Spans(mark, width, open, close, s)
      == Piece(mark, width, open, close, s) + Spans(mark, width, open, close, s[Consumed(mark, width, s)..])
  {
  }

  /** A text with one span, for the pass that looks for it. */
  lemma OneSpan(mark: char, marks: string, open: string, close: string, x: string, y: string, z: string)
    requires (marks == [mark] || marks == [mark, mark]) && y != "" && mark !in x && mark !in y && mark !in z
    ensures Spans(mark, |marks|, open, close, x + (marks + (y + (marks + z)))) == x + (open + y + close + z)
  {
    PlainInFront(mark, |marks|, open, close, x, marks + (y + (marks + z)));
    SpanInFront(mark, marks, open, close, y, z);
    NoMarkStays(mark, |marks|, open, close, z);
  }

  /** Single marks are no marks of a bold span. */
  lemma SingleMarksStay(open: string, close: string, x: string, y: string, z: string)
    requires y != "" && '*' !in x && '*' !in y && '*' !in z
    ensures var s := x + ("*" + (y + ("*" + z)));
      Spans('*', 2, open, close, s) == s
  {
    PlainInFront('*', 2, open, close, x, "*" + (y + ("*" + z)));
    SingleFirst('*', open, close, y + ("*" + z));
    PlainInFront('*', 2, open, close, y, "*" + z);
    SingleFirst('*', open, close, z);
    NoMarkStays('*', 2, open, close, z);
  }

  lemma CalmParts(x: string, marks: string, y: string, z: string)
    requires Calm(x) && Calm(y) && Calm(z) && forall i :: 0 <= i < |marks| ==> EscapeChar(marks[i]) == [marks[i]]
    ensures var s := x + (marks + (y + (marks + z)));
      EscapeHtml(s) == s
  {
    var s := x + (marks + (y + (marks + z)));
    assert forall c :: c in s ==> c in x || c in y || c in z || c in marks;
    EscapeIsOnePass(s);
    NothingToEscape(s);
  }

  lemma NoStarInside(x: string, open: string, y: string, close: string, z: string)
    requires Calm(x) && Calm(y) && Calm(z) && '*' !in open && '*' !in close
    ensures '*' !in x + (open + y + close + z)
  {
  }

  lemma NoStarInTags()
    ensures '*' !in "<code>" && '*' !in "</code>" && '*' !in "<strong>" && '*' !in "</strong>"
  {
  }

  lemma NoTickInside(x: string, marks: string, y: string, z: string)
    requires Calm(x) && Calm(y) && Calm(z) && '`' !in marks
    ensures '`' !in x + (marks + (y + (marks + z)))
  {
  }

  /** One span in a plain text becomes one element around its content. */
  lemma SpansFormat(x: string, y: string, z: string)
    requires Calm(x) && Calm(y) && Calm(z) && y != ""
    ensures FormatInline(EscapeHtml(x + ("`" + (y + ("`" + z))))) == x + ("<code>" + y + "</code>" + z)
    ensures FormatInline(EscapeHtml(x + ("**" + (y + ("**" + z))))) == x + ("<strong>" + y + "</strong>" + z)
    ensures FormatInline(EscapeHtml(x + ("*" + (y + ("*" + z))))) == x + ("<em>" + y + "</em>" + z)
  {
    CodeFormats(x, y, z);
    StrongFormats(x, y, z);
    EmFormats(x, y, z);
  }

  lemma CodeFormats(x: string, y: string, z: string)
    requires Calm(x) && Calm(y) && Calm(z) && y != ""
    ensures FormatInline(EscapeHtml(x + ("`" + (y + ("`" + z))))) == x + ("<code>" + y + "</code>" + z)
  {
    var s, open, close := x + ("`" + (y + ("`" + z))), "<code>", "</code>";
    CalmParts(x, "`", y, z);
    OneSpan('`', "`", open, close, x, y, z);
    NoStarInTags();
    NoStarInside(x, open, y, close, z);
    ThreePasses(s, x + (open + y + close + z), x + (open + y + close + z));
  }

  lemma StrongFormats(x: string, y: string, z: string)
    requires Calm(x) && Calm(y) && Calm(z) && y != ""
    ensures FormatInline(EscapeHtml(x + ("**" + (y + ("**" + z))))) == x + ("<strong>" + y + "</strong>" + z)
  {
    var s, open, close := x + ("**" + (y + ("**" + z))), "<strong>", "</strong>";
    CalmParts(x, "**", y, z);
    NoTickInside(x, "**", y, z);
    NoMarkStays('`', 1, "<code>", "</code>", s);
    OneSpan('*', "**", open, close, x, y, z);
    NoStarInTags();
    NoStarInside(x, open, y, close, z);
    ThreePasses(s, s, x + (open + y + close + z));
  }

  lemma EmFormats(x: string, y: string, z: string)
    requires Calm(x) && Calm(y) && Calm(z) && y != ""
    ensures FormatInline(EscapeHtml(x + ("*" + (y + ("*" + z))))) == x + ("<em>" + y + "</em>" + z)
  {
    var s := x + ("*" + (y + ("*" + z)));
    CalmParts(x, "*", y, z);
    NoTickInside(x, "*", y, z);
    NoMarkStays('`', 1, "<code>", "</code>", s);
    SingleMarksStay("<strong>", "</strong>", x, y, z);
    OneSpan('*', "*", "<em>", "</em>", x, y, z);
  }

  /** Once no star is left, the later passes find nothing. */
  lemma ThreePasses(e: string, a: string, b: string)
    requires a == Spans('`', 1, "<code>", "</code>", e)
    requires b == Spans('*', 2, "<strong>", "</strong>", a) || (a == b && '*' !in a)
    requires '*' !in b
    ensures FormatInline(e) == b
  {
    if '*' !in a {
      NoMarkStays('*', 2, "<strong>", "</strong>", a);
    }
    NoMarkStays('*', 1, "<em>", "</em>", b);
  }

  // ----- from the input to its lines

  /** The lines of a text are what stands between its line feeds. */
  lemma {:induction false} SplitExactly(s: string)
    ensures Spells(s, SplitLines(s), "\n") && forall k :: 0 <= k < |SplitLines(s)| ==> '\n' !in SplitLines(s)[k]
  {
    var n := Plain('\n', s);
    if n == |s| {
      assert SplitLines(s) == [s];
    } else {
      SplitExactly(s[n + 1..]);
      SpellsInFront(s[n + 1..], SplitLines(s[n + 1..]), "\n", s[..n]);
      assert s == s[..n] + "\n" + s[n + 1..];
    }
  }

  /** There is no carriage return right before a line feed. */
  ghost predicate NoPair(s: string) {
    forall i :: 0 <= i < |s| - 1 ==> !(s[i] == '\r' && s[i + 1] == '\n')
  }

  /** A text without such pairs stays as it is. */
  lemma {:induction false} NormalizeKeeps(s: string)
    requires NoPair(s)
    ensures NormalizeNewlines(s) == s
  {
    if s != "" {
      NormalizeKeeps(s[1..]);
      assert [s[0]] + s[1..] == s;
    }
  }

  /** A pair anywhere becomes one line feed, and what is in front of it and behind it is normalised by itself. */
  lemma {:induction false} NormalizeReplaces(a: string, b: string)
    ensures NormalizeNewlines(a + ("\r\n" + b)) == NormalizeNewlines(a) + ("\n" + NormalizeNewlines(b))
    decreases |a|
  {
    var pair := "\r\n" + b;
    if a == "" {
      assert a + pair == pair && pair[2..] == b;
    } else {
      var k := if "\r\n" <= a then 2 else 1;
      NormalizeReplaces(a[k..], b);
      StartsAlike(a, b);
      Reassociate(if k == 2 then "\n" else [a[0]], NormalizeNewlines(a[k..]), "\n" + NormalizeNewlines(b));
    }
  }

  lemma StartsAlike(a: string, b: string)
    requires a != ""
    ensures var s := a + ("\r\n" + b);
      && ("\r\n" <= s <==> "\r\n" <= a) && s[0] == a[0]
      && s[1..] == a[1..] + ("\r\n" + b) && ("\r\n" <= a ==> s[2..] == a[2..] + ("\r\n" + b))
  {
    var s := a + ("\r\n" + b);
    assert s[1] == if |a| > 1 then a[1] else '\r';
  }

  ghost predicate OnlySpace(s: string) {
    forall i :: 0 <= i < |s| ==> IsSpace(s[i])
  }

  lemma {:induction false} TrimEndExactly(core: string, after: string)
    requires OnlySpace(after) && (core != "" ==> !IsSpace(core[|core| - 1]))
    ensures TrimEnd(core + after) == core
    decreases |after|
  {
    if after == "" {
      assert core + after == core;
    } else {
      TrimEndExactly(core, after[..|after| - 1]);
      assert (core + after)[..|core + after| - 1] == core + after[..|after| - 1];
      assert (core + after)[|core + after| - 1] == after[|after| - 1];
    }
  }

  /** White space around a text is taken off, and nothing else. */
  lemma TrimExactly(before: string, core: string, after: string)
    requires OnlySpace(before) && OnlySpace(after)
    requires core != "" ==> !IsSpace(core[0]) && !IsSpace(core[|core| - 1])
    ensures Trim(before + (core + after)) == core
  {
    var s := before + (core + after);
    var n := RunWhile(IsSpace, s);
    assert forall i :: 0 <= i < |before| ==> s[i] == before[i];
    if core == "" {
      assert forall i :: 0 <= i < |s| ==> IsSpace(s[i]);
      assert s[n..] == "" + "";
      TrimEndExactly("", "");
    } else {
      assert s[|before|] == core[0] && n == |before| && s[n..] == core + after;
      TrimEndExactly(core, after);
    }
  }
}
