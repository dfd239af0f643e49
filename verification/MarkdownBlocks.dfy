/** The block loop of the markdown renderer: when it ends, and what it emits. */
module MarkdownBlocks {
  import opened Wrappers
  import opened Numerals
  import opened Markdown

  // ----- lines

  /** What `\s` matches and what trimming removes. */
  predicate IsSpace(c: char) {
    c == ' ' || '\t' <= c <= '\r' || c == '\U{A0}' || c == '\U{FEFF}' || IsSpaceSeparator(c) || IsLineEnd(c)
  }

  /** The space separators of Unicode other than the space and the no-break space. */
  predicate IsSpaceSeparator(c: char) {
    c == '\U{1680}' || '\U{2000}' <= c <= '\U{200A}' || c == '\U{202F}' || c == '\U{205F}' || c == '\U{3000}'
  }

  /** What `.` does not match. */
  predicate IsLineEnd(c: char) {
    c == '\n' || c == '\r' || c == '\U{2028}' || c == '\U{2029}'
  }

  function TrimStart(s: string): string {
    s[RunWhile(IsSpace, s)..]
  }

  function TrimEnd(s: string): string {
    if s != "" && IsSpace(s[|s| - 1]) then TrimEnd(s[..|s| - 1]) else s
  }

  function Trim(s: string): string {
    TrimEnd(TrimStart(s))
  }

  function NormalizeNewlines(s: string): string {
    if s == "" then ""
    else if "\r\n" <= s then "\n" + NormalizeNewlines(s[2..])
    else [s[0]] + NormalizeNewlines(s[1..])
  }

  function SplitLines(s: string): (lines: seq<string>)
    ensures lines != []
  {
    var n := Plain('\n', s);
    if n == |s| then [s] else [s[..n]] + SplitLines(s[n + 1..])
  }

  predicate Blank(line: string) {
    Trim(line) == ""
  }

  predicate IsHash(c: char) {
    c == '#'
  }

  function Hashes(line: string): nat {
    RunWhile(IsHash, line)
  }

  function Spaces(s: string): (n: nat)
    ensures n <= |s|
  {
    RunWhile(IsSpace, s)
  }

  /** One to three hashes followed by white space. */
  predicate HeadingMark(line: string) {
    1 <= Hashes(line) <= 3 && Hashes(line) < |line| && IsSpace(line[Hashes(line)])
  }

  /**
   The heading pattern: the mark, all its white space, and a non-empty rest of one line.  When
   nothing follows the white space, the last space itself is the rest, if there are two.
   */
  function HeadingText(line: string): Option<string> {
    if !HeadingMark(line) then None
    else
      var behind := line[Hashes(line)..];
      var rest := behind[Spaces(behind)..];
      if rest != "" then if exists i :: 0 <= i < |rest| && IsLineEnd(rest[i]) then None else Some(rest)
      else if |behind| >= 2 && !IsLineEnd(behind[|behind| - 1]) then Some([behind[|behind| - 1]])
      else None
  }

  predicate UnorderedItem(line: string) {
    |line| >= 2 && (line[0] == '-' || line[0] == '*') && IsSpace(line[1])
  }

  predicate IsDigit(c: char) {
    '0' <= c <= '9'
  }

  function Digits(line: string): nat {
    RunWhile(IsDigit, line)
  }

  predicate OrderedItem(line: string) {
    Digits(line) >= 1 && Digits(line) + 1 < |line| && line[Digits(line)] == '.' && IsSpace(line[Digits(line) + 1])
  }

  /** The line without its list marker, if it has one. */
  function ItemText(line: string): string {
    if !UnorderedItem(line) && !OrderedItem(line) then line
    else
      var behind := line[if UnorderedItem(line) then 1 else Digits(line) + 1..];
      behind[Spaces(behind)..]
  }

  /** The guard of the paragraph loop. */
  predicate ParagraphLine(line: string) {
    !Blank(line) && !HeadingMark(line) && !UnorderedItem(line) && !OrderedItem(line)
  }

  /** A heading mark that the heading pattern does not match. */
  predicate Stuck(line: string) {
    HeadingMark(line) && HeadingText(line).None?
  }

  lemma MarkedLineIsNotBlank(line: string)
    requires HeadingMark(line)
    ensures !Blank(line) && !UnorderedItem(line) && !OrderedItem(line)
  {
    assert line[0] == '#';
    assert TrimStart(line) == line;
    TrimEndKeepsFirst(line);
  }

  lemma {:induction false} TrimEndKeepsFirst(s: string)
    requires s != "" && !IsSpace(s[0])
    ensures TrimEnd(s) != ""
  {
    if IsSpace(s[|s| - 1]) {
      TrimEndKeepsFirst(s[..|s| - 1]);
    }
  }

  // ----- one turn of the loop

  /** The end of the run of lines from `i` on that satisfy `p`. */
  function RunEnd(p: string -> bool, lines: seq<string>, i: nat): (j: nat)
    requires i <= |lines|
    ensures i <= j <= |lines|
    ensures forall k :: i <= k < j ==> p(lines[k])
    ensures j < |lines| ==> !p(lines[j])
    decreases |lines| - i
  {
    if i < |lines| && p(lines[i]) then RunEnd(p, lines, i + 1) else i
  }

  function NextIndex(lines: seq<string>, i: nat): (j: nat)
    requires i < |lines|
    ensures i <= j <= |lines|
  {
    if Blank(lines[i]) || HeadingText(lines[i]).Some? then i + 1
    else if UnorderedItem(lines[i]) then RunEnd(UnorderedItem, lines, i)
    else if OrderedItem(lines[i]) then RunEnd(OrderedItem, lines, i)
    else RunEnd(ParagraphLine, lines, i)
  }

  /** The loop advances at a line unless, and only unless, the line is stuck. */
  lemma ProgressExactly(lines: seq<string>, i: nat)
    requires i < |lines|
    ensures NextIndex(lines, i) > i <==> !Stuck(lines[i])
  {
    if HeadingMark(lines[i]) {
      MarkedLineIsNotBlank(lines[i]);
    }
  }

  /** A stuck line belongs to no run that starts before it. */
  lemma NoRunPassesStuck(lines: seq<string>, i: nat, k: nat)
    requires i <= k < |lines| && Stuck(lines[k])
    ensures NextIndex(lines, i) <= k
  {
    MarkedLineIsNotBlank(lines[k]);
    if i == k {
      ProgressExactly(lines, k);
    }
  }

  ghost predicate NoneStuck(lines: seq<string>) {
    forall k :: 0 <= k < |lines| ==> !Stuck(lines[k])
  }

  /** The line the loop is at after `n` turns. */
  ghost function Turns(lines: seq<string>, n: nat): nat {
    if n == 0 then 0
    else if Turns(lines, n - 1) < |lines| then NextIndex(lines, Turns(lines, n - 1))
    else Turns(lines, n - 1)
  }

  lemma {:induction false} TurnsAdvance(lines: seq<string>, n: nat)
    requires NoneStuck(lines)
    ensures Far(lines, n)
  {
    if n > 0 {
      TurnsAdvance(lines, n - 1);
      TurnAdvances(lines, n, Turns(lines, n - 1));
    }
  }

  /** Each turn so far took a line at least. */
  ghost predicate Far(lines: seq<string>, n: nat) {
    Turns(lines, n) >= n || Turns(lines, n) >= |lines|
  }

  lemma TurnAdvances(lines: seq<string>, n: nat, i: nat)
    requires n > 0 && NoneStuck(lines) && i == Turns(lines, n - 1) && Far(lines, n - 1)
    ensures Far(lines, n)
  {
    if i < |lines| {
      ProgressExactly(lines, i);
    }
  }

  lemma {:induction false} TurnsStopAtStuck(lines: seq<string>, n: nat, k: nat)
    requires k < |lines| && Stuck(lines[k])
    ensures Turns(lines, n) <= k
  {
    if n > 0 {
      TurnsStopAtStuck(lines, n - 1, k);
      NoRunPassesStuck(lines, Turns(lines, n - 1), k);
    }
  }

  lemma AllTurns(lines: seq<string>)
    requires NoneStuck(lines)
    ensures Turns(lines, |lines|) >= |lines|
  {
    TurnsAdvance(lines, |lines|);
  }

  /** Rendering ends if and only if no line carries a heading mark that is no heading. */
  lemma TerminatesExactly(lines: seq<string>)
    ensures (exists n: nat :: Turns(lines, n) >= |lines|) <==> NoneStuck(lines)
  {
    if NoneStuck(lines) {
      AllTurns(lines);
    } else {
      var k :| 0 <= k < |lines| && Stuck(lines[k]);
      forall n: nat
        ensures Turns(lines, n) < |lines|
      {
        TurnsStopAtStuck(lines, n, k);
      }
    }
  }

  /** A hash and any one white-space character make such a line; two that end no line do not. */
  lemma EmptyHeadingIsStuck(c: char, d: char)
    requires IsSpace(c) && IsSpace(d)
    ensures Stuck(['#', c])
    ensures Stuck(['#', c, d]) <==> IsLineEnd(d)
  {
    var one, two := ['#', c], ['#', c, d];
    assert one[1..] == [c] && two[1..] == [c, d];
    assert [c][1..] == [] && [c, d][1..] == [d] && [d][1..] == [];
    assert IsHash(one[0]) && !IsHash(one[1]) && IsHash(two[0]) && !IsHash(two[1]);
    assert Hashes(one) == 1 && Hashes(two) == 1;
    assert Spaces([c]) == 1 && Spaces([d]) == 1 && Spaces([c, d]) == 2;
  }

  /** Two inputs on which rendering never ends: an empty heading with a space, and one with an ideographic space. */
  lemma EndlessInputs()
    ensures forall n: nat :: Turns(["a", "# ", "b"], n) <= 1
    ensures forall n: nat :: Turns(["a", "#\U{3000}", "b"], n) <= 1
  {
    EmptyHeadingIsStuck(' ', ' ');
    EmptyHeadingIsStuck('\U{3000}', ' ');
    forall n: nat
      ensures Turns(["a", "# ", "b"], n) <= 1 && Turns(["a", "#\U{3000}", "b"], n) <= 1
    {
      TurnsStopAtStuck(["a", "# ", "b"], n, 1);
      TurnsStopAtStuck(["a", "#\U{3000}", "b"], n, 1);
    }
  }

  /** And such texts reach the loop: any line that is stuck, between two others, is one of the lines it gets. */
  lemma EndlessText(line: string)
    requires NoLineEnd(line) && Stuck(line)
    ensures var lines := SplitLines(Trim(NormalizeNewlines("a" + "\n" + (line + "\n" + "b"))));
      lines == ["a", line, "b"] && forall n: nat :: Turns(lines, n) <= 1
  {
    var a, b := "a", "b";
    ThreeLines(a, line, b, line + "\n" + b);
    forall n: nat
      ensures Turns([a, line, b], n) <= 1
    {
      TurnsStopAtStuck([a, line, b], n, 1);
    }
  }

  /** Three lines without line ends, joined, come apart again; the outer ones have no white space at their ends. */
  lemma ThreeLines(a: string, b: string, c: string, rest: string)
    requires a != "" && c != "" && !IsSpace(a[0]) && !IsSpace(c[|c| - 1])
    requires NoLineEnd(a) && NoLineEnd(b) && NoLineEnd(c) && rest == b + "\n" + c
    ensures SplitLines(Trim(NormalizeNewlines(a + "\n" + rest))) == [a, b, c]
  {
    assert rest[|rest| - 1] == c[|c| - 1];
    NothingToClean(a, rest);
    SplitThree(a, b, c, rest);
  }

  lemma SplitThree(a: string, b: string, c: string, rest: string)
    requires NoLineEnd(a) && NoLineEnd(b) && NoLineEnd(c) && rest == b + "\n" + c
    ensures SplitLines(a + "\n" + rest) == [a, b, c]
  {
    SplitFirst(a, rest);
    SplitFirst(b, c);
    OneLine(c);
  }

  lemma NothingToClean(a: string, rest: string)
    requires a != "" && rest != "" && !IsSpace(a[0]) && !IsSpace(rest[|rest| - 1])
    requires '\r' !in a && '\r' !in rest
    ensures Trim(NormalizeNewlines(a + "\n" + rest)) == a + "\n" + rest
  {
    var text := a + "\n" + rest;
    assert text[0] == a[0] && text[|text| - 1] == rest[|rest| - 1];
    NothingToNormalize(text);
    NothingToTrim(text);
  }

  lemma NothingToTrim(s: string)
    requires s != "" && !IsSpace(s[0]) && !IsSpace(s[|s| - 1])
    ensures Trim(s) == s
  {
    assert RunWhile(IsSpace, s) == 0 && s[0..] == s;
  }

  ghost predicate NoLineEnd(s: string) {
    '\n' !in s && '\r' !in s
  }

  lemma {:induction false} NothingToNormalize(s: string)
    requires '\r' !in s
    ensures NormalizeNewlines(s) == s
  {
    if s != "" {
      assert s[0] in s && s[0] != '\r';
      NothingToNormalize(s[1..]);
      assert [s[0]] + s[1..] == s;
    }
  }

  lemma SplitFirst(line: string, rest: string)
    requires NoLineEnd(line)
    ensures SplitLines(line + "\n" + rest) == [line] + SplitLines(rest)
  {
    var s := line + "\n" + rest;
    PlainIs('\n', s, |line|);
    assert s[..|line|] == line && s[|line| + 1..] == rest;
  }

  lemma OneLine(line: string)
    requires NoLineEnd(line)
    ensures SplitLines(line) == [line]
  {
    PlainIs('\n', line, |line|);
  }

  // ----- what is emitted

  function Concat(parts: seq<string>): string {
    if parts == [] then "" else Concat(parts[..|parts| - 1]) + parts[|parts| - 1]
  }

  function JoinWithSpaces(parts: seq<string>): string {
    if parts == [] then ""
    else if |parts| == 1 then parts[0]
    else JoinWithSpaces(parts[..|parts| - 1]) + " " + parts[|parts| - 1]
  }

  function Inline(text: string): string {
    FormatInline(EscapeHtml(text))
  }

  function ListItem(line: string): string {
    "<li>" + Inline(ItemText(line)) + "</li>"
  }

  function Each<T, U>(f: T -> U, s: seq<T>): seq<U> {
    seq(|s|, k requires 0 <= k < |s| => f(s[k]))
  }

  /** The HTML of the block that starts at line `i`; nothing for a blank line. */
  function Block(lines: seq<string>, i: nat): string
    requires i < |lines|
  {
    var run := lines[i..NextIndex(lines, i)];
    if Blank(lines[i]) then ""
    else if HeadingText(lines[i]).Some? then
      "<h" + Decimal(Hashes(lines[i])) + ">" + Inline(Trim(HeadingText(lines[i]).value))
      + ("</h" + Decimal(Hashes(lines[i])) + ">")
    else if UnorderedItem(lines[i]) then "<ul>" + Concat(Each(ListItem, run)) + "</ul>"
    else if OrderedItem(lines[i]) then "<ol>" + Concat(Each(ListItem, run)) + "</ol>"
    else "<p>" + Inline(JoinWithSpaces(Each(Trim, run))) + "</p>"
  }

  ghost function Html(lines: seq<string>, i: nat): string
    requires NoneStuck(lines) && i <= |lines|
    decreases |lines| - i
  {
    if i == |lines| then ""
    else
      ProgressExactly(lines, i);
      Block(lines, i) + Html(lines, NextIndex(lines, i))
  }

  lemma {:induction false} ConcatIsSafe(parts: seq<string>)
    requires forall k :: 0 <= k < |parts| ==> OnlyTags(Tags(), parts[k])
    ensures OnlyTags(Tags(), Concat(parts))
  {
    if parts != [] {
      ConcatIsSafe(parts[..|parts| - 1]);
      SafeAppend(Tags(), Concat(parts[..|parts| - 1]), parts[|parts| - 1]);
    }
  }

  lemma WrappedInline(open: string, text: string, close: string)
    requires open in Tags() && close in Tags()
    ensures OnlyTags(Tags(), open + Inline(text) + close)
  {
    TagsAreWellShaped();
    InlineIsSafe(text);
    Wrapped(Tags(), open, Inline(text), close);
  }

  lemma ListItemIsSafe(line: string)
    ensures OnlyTags(Tags(), ListItem(line))
  {
    WrappedInline("<li>", ItemText(line), "</li>");
  }

  lemma ListIsSafe(lines: seq<string>, open: string, close: string)
    requires open in Tags() && close in Tags()
    ensures OnlyTags(Tags(), open + Concat(Each(ListItem, lines)) + close)
  {
    var items := Each(ListItem, lines);
    forall k | 0 <= k < |items|
      ensures OnlyTags(Tags(), items[k])
    {
      assert items[k] == ListItem(lines[k]);
      ListItemIsSafe(lines[k]);
    }
    ConcatIsSafe(items);
    TagsAreWellShaped();
    Wrapped(Tags(), open, Concat(items), close);
  }

  lemma HeadingTags(level: nat)
    requires 1 <= level <= 3
    ensures "<h" + Decimal(level) + ">" in Tags() && "</h" + Decimal(level) + ">" in Tags()
  {
    assert Decimal(1) == "1" && Decimal(2) == "2" && Decimal(3) == "3";
    assert "<h" + "1" + ">" == "<h1>" && "</h" + "1" + ">" == "</h1>";
    assert "<h" + "2" + ">" == "<h2>" && "</h" + "2" + ">" == "</h2>";
    assert "<h" + "3" + ">" == "<h3>" && "</h" + "3" + ">" == "</h3>";
  }

  lemma BlockIsSafe(lines: seq<string>, i: nat)
    requires i < |lines|
    ensures OnlyTags(Tags(), Block(lines, i))
  {
    var run := lines[i..NextIndex(lines, i)];
    if Blank(lines[i]) {
      NoBracketIsSafe(Tags(), "");
    } else if HeadingText(lines[i]).Some? {
      HeadingTags(Hashes(lines[i]));
      WrappedInline("<h" + Decimal(Hashes(lines[i])) + ">", Trim(HeadingText(lines[i]).value),
        "</h" + Decimal(Hashes(lines[i])) + ">");
    } else if UnorderedItem(lines[i]) {
      ListIsSafe(run, "<ul>", "</ul>");
    } else if OrderedItem(lines[i]) {
      ListIsSafe(run, "<ol>", "</ol>");
    } else {
      WrappedInline("<p>", JoinWithSpaces(Each(Trim, run)), "</p>");
    }
  }

  /** Whatever the input, every `<` of the output starts one of the inserted tags. */
  lemma {:induction false} HtmlIsSafe(lines: seq<string>, i: nat)
    requires NoneStuck(lines) && i <= |lines|
    ensures OnlyTags(Tags(), Html(lines, i))
    decreases |lines| - i
  {
    if i == |lines| {
      NoBracketIsSafe(Tags(), "");
    } else {
      ProgressExactly(lines, i);
      BlockIsSafe(lines, i);
      HtmlIsSafe(lines, NextIndex(lines, i));
      SafeAppend(Tags(), Block(lines, i), Html(lines, NextIndex(lines, i)));
    }
  }

  // ----- the loop itself

  lemma EachSnoc<T, U>(f: T -> U, s: seq<T>, start: nat, i: nat)
    requires start <= i < |s|
    ensures Each(f, s[start..i + 1]) == Each(f, s[start..i]) + Each(f, [s[i]])
  {
    assert s[start..i + 1] == s[start..i] + [s[i]];
  }

  /** The list item of one line. */
  method FormatItem(line: string) returns (item: string)
    ensures [item] == Each(ListItem, [line])
  {
    item := "<li>" + Inline(ItemText(line)) + "</li>";
    assert item == ListItem(line);
  }

  method TrimLine(line: string) returns (trimmed: string)
    ensures [trimmed] == Each(Trim, [line])
  {
    trimmed := Trim(line);
  }

  method UnorderedList(lines: seq<string>, start: nat) returns (html: string, i: nat)
    requires start <= |lines|
    ensures i == RunEnd(UnorderedItem, lines, start)
    ensures html == "<ul>" + Concat(Each(ListItem, lines[start..i])) + "</ul>"
  {
    var items: seq<string> := [];
    i := start;
    while i < |lines| && UnorderedItem(lines[i])
      invariant start <= i <= |lines| && RunEnd(UnorderedItem, lines, i) == RunEnd(UnorderedItem, lines, start)
      invariant items == Each(ListItem, lines[start..i])
      decreases |lines| - i
    {
      EachSnoc(ListItem, lines, start, i);
      var item := FormatItem(lines[i]);
      items := items + [item];
      i := i + 1;
    }
    html := "<ul>" + Concat(items) + "</ul>";
  }

  method OrderedList(lines: seq<string>, start: nat) returns (html: string, i: nat)
    requires start <= |lines|
    ensures i == RunEnd(OrderedItem, lines, start)
    ensures html == "<ol>" + Concat(Each(ListItem, lines[start..i])) + "</ol>"
  {
    var items: seq<string> := [];
    i := start;
    while i < |lines| && OrderedItem(lines[i])
      invariant start <= i <= |lines| && RunEnd(OrderedItem, lines, i) == RunEnd(OrderedItem, lines, start)
      invariant items == Each(ListItem, lines[start..i])
      decreases |lines| - i
    {
      EachSnoc(ListItem, lines, start, i);
      var item := FormatItem(lines[i]);
      items := items + [item];
      i := i + 1;
    }
    html := "<ol>" + Concat(items) + "</ol>";
  }

  /** The run of lines that pass the guard, each trimmed. */
  method TrimRun(guard: string -> bool, lines: seq<string>, start: nat) returns (para: seq<string>, i: nat)
    requires start <= |lines|
    ensures i == RunEnd(guard, lines, start)
    ensures para == Each(Trim, lines[start..i])
  {
    para := [];
    i := start;
    while i < |lines| && guard(lines[i])
      invariant start <= i <= |lines| && RunEnd(guard, lines, i) == RunEnd(guard, lines, start)
      invariant para == Each(Trim, lines[start..i])
      decreases |lines| - i
    {
      EachSnoc(Trim, lines, start, i);
      var trimmed := TrimLine(lines[i]);
      para := para + [trimmed];
      i := i + 1;
    }
  }

  method ParagraphBlock(lines: seq<string>, start: nat) returns (html: string, i: nat)
    requires start <= |lines|
    ensures i == RunEnd(ParagraphLine, lines, start)
    ensures html == "<p>" + Inline(JoinWithSpaces(Each(Trim, lines[start..i]))) + "</p>"
  {
    var para;
    para, i := TrimRun(ParagraphLine, lines, start);
    html := "<p>" + Inline(JoinWithSpaces(para)) + "</p>";
  }

  /** The block that starts at a line that is not blank. */
  method RenderBlock(lines: seq<string>, start: nat) returns (block: string, i: nat)
    requires start < |lines| && !Blank(lines[start]) && !Stuck(lines[start])
    ensures block == Block(lines, start) && i == NextIndex(lines, start)
  {
    var heading := HeadingText(lines[start]);
    if heading.Some? {
      var level := Hashes(lines[start]);
      return "<h" + Decimal(level) + ">" + Inline(Trim(heading.value)) + ("</h" + Decimal(level) + ">"), start + 1;
    }
    if UnorderedItem(lines[start]) {
      block, i := UnorderedList(lines, start);
    } else if OrderedItem(lines[start]) {
      block, i := OrderedList(lines, start);
    } else {
      block, i := ParagraphBlock(lines, start);
    }
  }

  /** Converts a constrained markdown subset to escaped HTML. */
  method MarkdownToSafeHtml(markdown: string) returns (html: string)
    requires NoneStuck(SplitLines(Trim(NormalizeNewlines(markdown))))
    ensures OnlyTags(Tags(), html)
    ensures var normalized := Trim(NormalizeNewlines(markdown));
      html == if normalized == "" then "" else Html(SplitLines(normalized), 0)
  {
    var normalized := Trim(NormalizeNewlines(markdown));
    if normalized == "" {
      NoBracketIsSafe(Tags(), "");
      return "";
    }
    var lines := SplitLines(normalized);
    html := RenderLines(lines);
    HtmlIsSafe(lines, 0);
  }

  method RenderLines(lines: seq<string>) returns (html: string)
    requires NoneStuck(lines)
    ensures html == Html(lines, 0)
  {
    var blocks: seq<string> := [];
    var i := 0;
    while i < |lines|
      invariant 0 <= i <= |lines|
      invariant Html(lines, 0) == Concat(blocks) + Html(lines, i)
      decreases |lines| - i
    {
      HtmlStep(lines, i);
      PushBlock(blocks, Block(lines, i), Html(lines, NextIndex(lines, i)));
      if Blank(lines[i]) {
        BlankStep(lines, i, Block(lines, i), Html(lines, NextIndex(lines, i)));
        i := i + 1;
      } else {
        var block;
        block, i := RenderBlock(lines, i);
        blocks := blocks + [block];
      }
    }
    return Concat(blocks);
  }

  lemma HtmlStep(lines: seq<string>, i: nat)
    requires NoneStuck(lines) && i < |lines|
    ensures i < NextIndex(lines, i) && Html(lines, i) == Block(lines, i) + Html(lines, NextIndex(lines, i))
  {
    ProgressExactly(lines, i);
  }

  /** A blank line adds nothing. */
  lemma BlankStep(lines: seq<string>, i: nat, block: string, rest: string)
    requires i < |lines| && Blank(lines[i]) && block == Block(lines, i)
    ensures NextIndex(lines, i) == i + 1 && block + rest == rest
  {
  }

  lemma PushBlock(blocks: seq<string>, block: string, rest: string)
    ensures Concat(blocks + [block]) + rest == Concat(blocks) + (block + rest)
  {
    assert (blocks + [block])[..|blocks|] == blocks;
  }
}
