/**
 The order of the tags in formatted inline text: as many opening as closing ones, and exactly
 when they nest.
 */
module MarkdownNesting {
  import opened Wrappers
  import opened Sequences
  import opened Markdown

  // ----- the tags of a text

  /** From the start of the text to its first `>`. */
  function TagAt(s: string): string {
    var n := RunWhile(NotClosing, s);
    if n < |s| then s[..n + 1] else s
  }

  predicate NotClosing(c: char) {
    c != '>'
  }

  /** What stands at each `<` of the text, in order. */
  function TagsOf(s: string): seq<string> {
    if s == "" then [] else FirstTag(s) + TagsOf(s[1..])
  }

  function FirstTag(s: string): seq<string>
    requires s != ""
  {
    if s[0] == '<' then [TagAt(s)] else []
  }

  /** Every `<` is followed by a `>`. */
  ghost predicate Closed(s: string) {
    forall i :: 0 <= i < |s| && s[i] == '<' ==> '>' in s[i..]
  }

  lemma TagAtPrefix(a: string, b: string)
    requires '>' in a
    ensures TagAt(a + b) == TagAt(a)
  {
    var n, m := RunWhile(NotClosing, a), RunWhile(NotClosing, a + b);
    assert forall i :: 0 <= i < |a| ==> (a + b)[i] == a[i];
    var k :| 0 <= k < |a| && a[k] == '>';
    assert n <= k && m <= k && n == m;
    assert (a + b)[..n + 1] == a[..n + 1];
  }

  lemma {:induction false} TagsAppend(a: string, b: string)
    requires Closed(a)
    ensures TagsOf(a + b) == TagsOf(a) + TagsOf(b)
  {
    if a == "" {
      assert a + b == b;
    } else {
      ClosedTail(a);
      TagsAppend(a[1..], b);
      FirstTagAppend(a, b);
      assert (a + b)[1..] == a[1..] + b;
      Reassociate(FirstTag(a), TagsOf(a[1..]), TagsOf(b));
    }
  }

  lemma FirstTagAppend(a: string, b: string)
    requires a != "" && Closed(a)
    ensures FirstTag(a + b) == FirstTag(a)
  {
    if a[0] == '<' {
      assert a[0..] == a;
      TagAtPrefix(a, b);
    }
  }

  lemma ClosedTail(a: string)
    requires a != "" && Closed(a)
    ensures Closed(a[1..])
  {
    forall i | 0 <= i < |a[1..]| && a[1..][i] == '<'
      ensures '>' in a[1..][i..]
    {
      assert a[1..][i..] == a[i + 1..];
    }
  }

  /** Tags that end where their first bracket closes. */
  ghost predicate EndRight(tags: set<string>) {
    forall t :: t in tags ==> |t| >= 3 && t[|t| - 1] == '>'
  }

  lemma SafeIsClosed(tags: set<string>, s: string)
    requires EndRight(tags) && OnlyTags(tags, s)
    ensures Closed(s)
  {
    forall i | 0 <= i < |s| && s[i] == '<'
      ensures '>' in s[i..]
    {
      var t :| t in tags && t <= s[i..];
      assert s[i..][|t| - 1] == '>';
    }
  }

  lemma {:induction false} NoTags(s: string)
    requires '<' !in s
    ensures TagsOf(s) == [] && Closed(s)
  {
    if s != "" {
      assert s[0] in s;
      NoTags(s[1..]);
    }
  }

  // ----- nesting

  predicate Opens(tag: string) {
    |tag| >= 2 && tag[0] == '<' && tag[1] != '/'
  }

  function Closing(tag: string): string
    requires tag != ""
  {
    "</" + tag[1..]
  }

  /** Reads the tags, with the closing tags that are expected on a stack. */
  function Parse(stack: seq<string>, tags: seq<string>): Option<seq<string>>
    decreases |tags|
  {
    if tags == [] then Some(stack)
    else if Opens(tags[0]) then Parse(stack + [Closing(tags[0])], tags[1..])
    else if stack != [] && stack[|stack| - 1] == tags[0] then Parse(stack[..|stack| - 1], tags[1..])
    else None
  }

  predicate Nested(tags: seq<string>) {
    Parse([], tags) == Some([])
  }

  lemma {:induction false} ParseAppend(stack: seq<string>, a: seq<string>, b: seq<string>)
    ensures Parse(stack, a + b) == match Parse(stack, a) case None => None case Some(rest) => Parse(rest, b)
    decreases |a|
  {
    if a == [] {
      assert a + b == b;
    } else {
      assert (a + b)[0] == a[0] && (a + b)[1..] == a[1..] + b;
      if Opens(a[0]) {
        ParseAppend(stack + [Closing(a[0])], a[1..], b);
      } else if stack != [] && stack[|stack| - 1] == a[0] {
        ParseAppend(stack[..|stack| - 1], a[1..], b);
      }
    }
  }

  /** A stack over one more expected tag that is neither opened nor closed by the tags read. */
  lemma {:induction false} ParseOver(below: seq<string>, stack: seq<string>, tags: seq<string>, close: string)
    requires close !in tags && forall i :: 0 <= i < |tags| && Opens(tags[i]) ==> Closing(tags[i]) != close
    requires close !in stack
    ensures Parse(below + [close] + stack, tags)
      == match Parse(stack, tags) case None => None case Some(rest) => Some(below + [close] + rest)
    ensures Parse(stack, tags).Some? ==> close !in Parse(stack, tags).value
    decreases |tags|
  {
    if tags != [] {
      var whole := below + [close] + stack;
      if Opens(tags[0]) {
        ParseOver(below, stack + [Closing(tags[0])], tags[1..], close);
        assert whole + [Closing(tags[0])] == below + [close] + (stack + [Closing(tags[0])]);
      } else if stack != [] {
        assert whole[|whole| - 1] == stack[|stack| - 1];
        if stack[|stack| - 1] == tags[0] {
          ParseOver(below, stack[..|stack| - 1], tags[1..], close);
          assert whole[..|whole| - 1] == below + [close] + stack[..|stack| - 1];
        }
      } else {
        assert whole[|whole| - 1] == close && close != tags[0];
      }
    }
  }

  /** Tags in a pair that does not occur among them read as nothing if they nest, and not at all otherwise. */
  lemma ParsePair(stack: seq<string>, open: string, tags: seq<string>)
    requires Opens(open) && !Opens(Closing(open)) && Closing(open) !in tags
    requires forall i :: 0 <= i < |tags| && Opens(tags[i]) ==> Closing(tags[i]) != Closing(open)
    ensures Parse(stack, [open] + tags + [Closing(open)]) == if Nested(tags) then Some(stack) else None
  {
    var close := Closing(open);
    ParseOne(stack, open);
    ParseAppend(stack, [open], tags);
    ParseAppend(stack, [open] + tags, [close]);
    ParseOver(stack, [], tags, close);
    assert stack + [close] + [] == stack + [close];
    if Parse([], tags).Some? {
      ParseClose(stack, close, Parse([], tags).value);
    }
  }

  lemma ParseOne(stack: seq<string>, open: string)
    requires Opens(open)
    ensures Parse(stack, [open]) == Some(stack + [Closing(open)])
  {
    assert [open][1..] == [];
  }

  lemma ParseClose(stack: seq<string>, close: string, rest: seq<string>)
    requires !Opens(close) && close !in rest
    ensures Parse(stack + [close] + rest, [close]) == if rest == [] then Some(stack) else None
  {
    var whole := stack + [close] + rest;
    assert [close][1..] == [];
    if rest == [] {
      assert whole[..|whole| - 1] == stack && whole[|whole| - 1] == close;
    } else {
      assert whole[|whole| - 1] == rest[|rest| - 1] && rest[|rest| - 1] in rest;
    }
  }

  // ----- spans

  /** The texts between the marks of the spans, in order. */
  function SpanContents(mark: char, width: nat, s: string): seq<string>
    requires 1 <= width <= 2
    decreases |s|
  {
    if s == "" then []
    else
      var inside := SpanLength(mark, width, s);
      (if Plain(mark, s) == 0 && inside > 0 then [s[width..width + inside]] else [])
      + SpanContents(mark, width, s[Consumed(mark, width, s)..])
  }

  ghost predicate AllNested(texts: seq<string>) {
    forall i :: 0 <= i < |texts| ==> Nested(TagsOf(texts[i]))
  }

  /** One bracket at each end and none inside. */
  ghost predicate TagShape(t: string) {
    && |t| >= 3 && t[0] == '<' && t[|t| - 1] == '>'
    && (forall i :: 0 < i < |t| ==> t[i] != '<') && (forall i :: 0 <= i < |t| - 1 ==> t[i] != '>')
  }

  lemma TagIsItself(t: string)
    requires TagShape(t)
    ensures TagsOf(t) == [t] && Closed(t)
  {
    NoTags(t[1..]);
    assert RunWhile(NotClosing, t) == |t| - 1;
    assert t[..|t| - 1 + 1] == t;
    assert t[|t| - 1] in t[0..];
  }

  lemma TagsSplit(s: string, n: nat)
    requires n <= |s| && Closed(s[..n])
    ensures TagsOf(s) == TagsOf(s[..n]) + TagsOf(s[n..])
  {
    TagsAppend(s[..n], s[n..]);
    assert s[..n] + s[n..] == s;
  }

  /** What the pieces of the scan have to do with the tags of the text. */
  lemma PlainStep(tags: set<string>, s: string, n: nat)
    requires WellShaped(tags) && EndRight(tags) && OnlyTags(tags, s)
    requires 0 < n <= |s| && (n < |s| ==> s[n] == '`' || s[n] == '*')
    ensures TagsOf(s) == TagsOf(s[..n]) + TagsOf(s[n..]) && Closed(s[..n])
  {
    SafePrefix(tags, s, n);
    SafeIsClosed(tags, s[..n]);
    TagsSplit(s, n);
  }

  lemma MarkStep(marks: string, rest: string)
    requires '<' !in marks
    ensures TagsOf(marks + rest) == TagsOf(rest)
  {
    NoTags(marks);
    TagsAppend(marks, rest);
  }

  lemma MarksAreNoTags(mark: char, width: nat, s: string)
    requires 1 <= width <= 2 && Marked(mark, width, s) && mark != '<'
    ensures TagsOf(s) == TagsOf(s[width..])
  {
    assert forall i :: 0 <= i < width ==> s[..width][i] == mark;
    MarkStep(s[..width], s[width..]);
    assert s[..width] + s[width..] == s;
  }

  lemma SpanMarks(mark: char, width: nat, s: string)
    requires 1 <= width <= 2 && SpanLength(mark, width, s) > 0
    ensures Marked(mark, width, s) && Marked(mark, width, s[width + SpanLength(mark, width, s)..])
  {
  }

  /** A span is marks, a content, marks; `rest` is what is behind it. */
  lemma SpanParts(mark: char, width: nat, s: string)
    returns (tail: string, content: string, behind: string, rest: string)
    requires 1 <= width <= 2 && SpanLength(mark, width, s) > 0
    ensures var inside := SpanLength(mark, width, s);
      && Marked(mark, width, s) && tail == s[width..]
      && 0 < inside < |tail| && content == tail[..inside] == s[width..width + inside]
      && behind == tail[inside..] && Marked(mark, width, behind)
      && rest == behind[width..] == s[2 * width + inside..]
  {
    var inside := SpanLength(mark, width, s);
    SpanMarks(mark, width, s);
    SpanSlices(s, width, inside);
    tail := s[width..];
    content, behind := tail[..inside], tail[inside..];
    rest := behind[width..];
  }

  lemma SpanStep(tags: set<string>, mark: char, width: nat, s: string) returns (content: string, rest: string)
    requires (mark == '`' || mark == '*') && 1 <= width <= 2 && SpanLength(mark, width, s) > 0
    requires WellShaped(tags) && EndRight(tags) && OnlyTags(tags, s)
    ensures var inside := SpanLength(mark, width, s);
      content == s[width..width + inside] && rest == s[2 * width + inside..]
    ensures TagsOf(s) == TagsOf(content) + TagsOf(rest) && Closed(content)
  {
    var tail, content', behind, rest' := SpanParts(mark, width, s);
    content, rest := content', rest';
    MarksAreNoTags(mark, width, s);
    SafeSuffix(tags, s, width);
    BetweenMarks(tags, mark, width, tail, |content|);
  }

  lemma BetweenMarks(tags: set<string>, mark: char, width: nat, s: string, inside: nat)
    requires (mark == '`' || mark == '*') && 1 <= width <= 2 && 0 < inside < |s|
    requires WellShaped(tags) && EndRight(tags) && OnlyTags(tags, s) && Marked(mark, width, s[inside..])
    ensures TagsOf(s) == TagsOf(s[..inside]) + TagsOf(s[inside..][width..]) && Closed(s[..inside])
  {
    PlainStep(tags, s, inside);
    MarksAreNoTags(mark, width, s[inside..]);
  }

  lemma SpanSlices(s: string, width: nat, inside: nat)
    requires 2 * width + inside <= |s|
    ensures s[width..][..inside] == s[width..width + inside]
    ensures s[width..][inside..] == s[width + inside..]
    ensures s[width..][inside..][width..] == s[2 * width + inside..]
  {
  }

  /** The tags of the first piece of the output. */
  lemma PieceTags(tags: set<string>, mark: char, width: nat, open: string, close: string, s: string)
    requires (mark == '`' || mark == '*') && 1 <= width <= 2 && s != ""
    requires WellShaped(tags) && EndRight(tags) && OnlyTags(tags, s) && TagShape(open) && TagShape(close)
    ensures
      var n, inside := Plain(mark, s), SpanLength(mark, width, s);
      var piece := Piece(mark, width, open, close, s);
      && Closed(piece)
      && (n > 0 ==> TagsOf(s) == TagsOf(piece) + TagsOf(s[Consumed(mark, width, s)..]))
      && (n == 0 && inside == 0 ==> TagsOf(piece) == [] && TagsOf(s) == TagsOf(s[Consumed(mark, width, s)..]))
      && (n == 0 && inside > 0 ==>
        && TagsOf(piece) == [open] + TagsOf(s[width..width + inside]) + [close]
        && TagsOf(s) == TagsOf(s[width..width + inside]) + TagsOf(s[Consumed(mark, width, s)..]))
  {
    if Plain(mark, s) > 0 {
      PlainStep(tags, s, Plain(mark, s));
    } else if SpanLength(mark, width, s) > 0 {
      var _, _ := SpanPieceTags(tags, mark, width, open, close, s);
    } else {
      SingleMark(mark, s);
    }
  }

  lemma SpanPieceTags(tags: set<string>, mark: char, width: nat, open: string, close: string, s: string)
    returns (content: string, rest: string)
    requires (mark == '`' || mark == '*') && 1 <= width <= 2 && s != ""
    requires WellShaped(tags) && EndRight(tags) && OnlyTags(tags, s) && TagShape(open) && TagShape(close)
    requires Plain(mark, s) == 0 && SpanLength(mark, width, s) > 0
    ensures content == s[width..width + SpanLength(mark, width, s)] && rest == s[Consumed(mark, width, s)..]
    ensures
      var piece := Piece(mark, width, open, close, s);
      && piece == open + content + close && Closed(piece)
      && TagsOf(piece) == [open] + TagsOf(content) + [close]
      && TagsOf(s) == TagsOf(content) + TagsOf(rest)
  {
    content, rest := SpanStep(tags, mark, width, s);
    SpanPiece(mark, width, open, close, s);
    PairTags(open, content, close);
  }

  lemma SpanPiece(mark: char, width: nat, open: string, close: string, s: string)
    requires 1 <= width <= 2 && s != "" && Plain(mark, s) == 0 && SpanLength(mark, width, s) > 0
    ensures var inside := SpanLength(mark, width, s);
      && Piece(mark, width, open, close, s) == open + s[width..width + inside] + close
      && Consumed(mark, width, s) == 2 * width + inside
  {
  }

  lemma SingleMark(mark: char, s: string)
    requires s != "" && s[0] == mark && mark != '<'
    ensures TagsOf([s[0]]) == [] && Closed([s[0]]) && TagsOf(s) == TagsOf(s[1..])
  {
    NoTags([mark]);
    MarkStep([mark], s[1..]);
    assert s == [mark] + s[1..];
  }

  lemma PairTags(open: string, content: string, close: string)
    requires TagShape(open) && TagShape(close) && Closed(content)
    ensures TagsOf(open + content + close) == [open] + TagsOf(content) + [close] && Closed(open + content + close)
  {
    TagIsItself(open);
    TagIsItself(close);
    TagsAppend(open, content);
    ClosedAppend(open, content);
    TagsAppend(open + content, close);
    ClosedAppend(open + content, close);
  }

  lemma ClosedAppend(a: string, b: string)
    requires Closed(a) && Closed(b)
    ensures Closed(a + b)
  {
    forall i | 0 <= i < |a + b| && (a + b)[i] == '<'
      ensures '>' in (a + b)[i..]
    {
      if i < |a| {
        assert (a + b)[i..] == a[i..] + b;
      } else {
        assert (a + b)[i..] == b[i - |a|..];
      }
    }
  }

  /** An element of a part is one of the whole; a pair that is not in the whole is in no part. */
  ghost predicate Without(open: string, tags: seq<string>) {
    && open != "" && open !in tags && Closing(open) !in tags
    && forall i :: 0 <= i < |tags| && Opens(tags[i]) ==> Closing(tags[i]) != Closing(open)
  }

  lemma WithoutParts(open: string, a: seq<string>, b: seq<string>)
    requires Without(open, a + b)
    ensures Without(open, a) && Without(open, b)
  {
    assert forall i :: 0 <= i < |a| ==> a[i] == (a + b)[i];
    assert forall i :: 0 <= i < |b| ==> b[i] == (a + b)[|a| + i];
  }

  lemma {:induction false} ParseUnder(below: seq<string>, stack: seq<string>, tags: seq<string>)
    requires Parse(stack, tags).Some?
    ensures Parse(below + stack, tags) == Some(below + Parse(stack, tags).value)
    decreases |tags|
  {
    if tags != [] {
      if Opens(tags[0]) {
        ParseUnder(below, stack + [Closing(tags[0])], tags[1..]);
        assert below + stack + [Closing(tags[0])] == below + (stack + [Closing(tags[0])]);
      } else {
        ParseUnder(below, stack[..|stack| - 1], tags[1..]);
        assert (below + stack)[..|below + stack| - 1] == below + stack[..|stack| - 1];
      }
    }
  }

  /** A pair around tags, and what follows, which reads like `rest` if `ok` and not at all otherwise. */
  lemma PairReads(stack: seq<string>, open: string, out: seq<string>, whole: seq<string>, inner: seq<string>,
      rest: seq<string>, later: seq<string>, ok: bool)
    requires Opens(open) && !Opens(Closing(open)) && Without(open, inner)
    requires out == [open] + inner + [Closing(open)] + later && whole == inner + rest
    requires Parse(stack, later) == if ok then Parse(stack, rest) else None
    ensures Parse(stack, out) == if Nested(inner) && ok then Parse(stack, whole) else None
  {
    ParsePair(stack, open, inner);
    ParseAppend(stack, [open] + inner + [Closing(open)], later);
    if Nested(inner) {
      ParseUnder(stack, [], inner);
      assert stack + [] == stack;
      ParseAppend(stack, inner, rest);
    }
  }

  /** The pair of tags, and that the text does not have it yet. */
  ghost predicate NewPair(tags: set<string>, open: string, s: string) {
    && WellShaped(tags) && EndRight(tags) && OnlyTags(tags, s)
    && Opens(open) && !Opens(Closing(open)) && TagShape(open) && TagShape(Closing(open))
    && Without(open, TagsOf(s))
  }

  /**
   Inserting a pair of tags around the spans changes nothing about how the tags read if the tags
   within each span nest, and makes them unreadable otherwise.
   */
  lemma {:induction false} SpansNest(tags: set<string>, mark: char, width: nat, open: string, s: string,
      stack: seq<string>)
    requires (mark == '`' || mark == '*') && 1 <= width <= 2 && NewPair(tags, open, s)
    ensures ReadsAlike(mark, width, open, s, stack)
    decreases |s|
  {
    if s != "" {
      var rest := s[Consumed(mark, width, s)..];
      OutputTags(tags, mark, width, open, s);
      if Plain(mark, s) == 0 && SpanLength(mark, width, s) > 0 {
        SpansNest(tags, mark, width, open, rest, stack);
        SpanNests(tags, mark, width, open, s, stack);
      } else {
        var front := TagsOf(Piece(mark, width, open, Closing(open), s));
        if Parse(stack, front).Some? {
          SpansNest(tags, mark, width, open, rest, Parse(stack, front).value);
        }
        PlainNests(tags, mark, width, open, s, stack);
      }
    }
  }

  /** The tags of the output are those of its first piece and of the rest. */
  lemma OutputTags(tags: set<string>, mark: char, width: nat, open: string, s: string)
    requires (mark == '`' || mark == '*') && 1 <= width <= 2 && NewPair(tags, open, s) && s != ""
    ensures var rest := s[Consumed(mark, width, s)..];
      && TagsOf(Spans(mark, width, open, Closing(open), s))
        == TagsOf(Piece(mark, width, open, Closing(open), s)) + TagsOf(Spans(mark, width, open, Closing(open), rest))
      && NewPair(tags, open, rest)
  {
    var close, rest := Closing(open), s[Consumed(mark, width, s)..];
    PieceTags(tags, mark, width, open, close, s);
    TagsAppend(Piece(mark, width, open, close, s), Spans(mark, width, open, close, rest));
    SafeSuffix(tags, s, Consumed(mark, width, s));
    if Plain(mark, s) == 0 && SpanLength(mark, width, s) > 0 {
      WithoutParts(open, TagsOf(s[width..width + SpanLength(mark, width, s)]), TagsOf(rest));
    } else if Plain(mark, s) > 0 {
      WithoutParts(open, TagsOf(Piece(mark, width, open, close, s)), TagsOf(rest));
    }
  }

  /** The output reads like the text, or not at all if the spans do not all nest. */
  ghost predicate ReadsAlike(mark: char, width: nat, open: string, s: string, stack: seq<string>)
    requires 1 <= width <= 2 && open != ""
  {
    Parse(stack, TagsOf(Spans(mark, width, open, Closing(open), s)))
    == if AllNested(SpanContents(mark, width, s)) then Parse(stack, TagsOf(s)) else None
  }

  lemma SpanNests(tags: set<string>, mark: char, width: nat, open: string, s: string, stack: seq<string>)
    requires (mark == '`' || mark == '*') && 1 <= width <= 2 && NewPair(tags, open, s)
    requires s != "" && Plain(mark, s) == 0 && SpanLength(mark, width, s) > 0
    requires ReadsAlike(mark, width, open, s[Consumed(mark, width, s)..], stack)
    ensures ReadsAlike(mark, width, open, s, stack)
  {
    var close := Closing(open);
    OutputTags(tags, mark, width, open, s);
    var content, rest := SpanPieceTags(tags, mark, width, open, close, s);
    var others, later := SpanContents(mark, width, rest), TagsOf(Spans(mark, width, open, close, rest));
    var out, whole, inner := TagsOf(Spans(mark, width, open, close, s)), TagsOf(s), TagsOf(content);
    WithoutParts(open, inner, TagsOf(rest));
    PairReads(stack, open, out, whole, inner, TagsOf(rest), later, AllNested(others));
    SpanContentsFirst(mark, width, s, content, rest);
    FirstNested(content, others);
  }

  lemma SpanContentsFirst(mark: char, width: nat, s: string, content: string, rest: string)
    requires 1 <= width <= 2 && s != "" && Plain(mark, s) == 0 && SpanLength(mark, width, s) > 0
    requires content == s[width..width + SpanLength(mark, width, s)] && rest == s[Consumed(mark, width, s)..]
    ensures SpanContents(mark, width, s) == [content] + SpanContents(mark, width, rest)
  {
  }

  lemma PlainNests(tags: set<string>, mark: char, width: nat, open: string, s: string, stack: seq<string>)
    requires (mark == '`' || mark == '*') && 1 <= width <= 2 && NewPair(tags, open, s)
    requires s != "" && !(Plain(mark, s) == 0 && SpanLength(mark, width, s) > 0)
    requires var front := TagsOf(Piece(mark, width, open, Closing(open), s));
      Parse(stack, front).Some? ==>
        ReadsAlike(mark, width, open, s[Consumed(mark, width, s)..], Parse(stack, front).value)
    ensures ReadsAlike(mark, width, open, s, stack)
  {
    var close, rest := Closing(open), s[Consumed(mark, width, s)..];
    var front := TagsOf(Piece(mark, width, open, close, s));
    OutputTags(tags, mark, width, open, s);
    PlainParts(tags, mark, width, open, s);
    ParseAppend(stack, front, TagsOf(Spans(mark, width, open, close, rest)));
    ParseAppend(stack, front, TagsOf(rest));
  }

  lemma FirstNested(first: string, others: seq<string>)
    ensures AllNested([first] + others) <==> Nested(TagsOf(first)) && AllNested(others)
  {
    var all := [first] + others;
    assert all[0] == first && forall i :: 0 <= i < |others| ==> others[i] == all[i + 1];
  }

  // ----- as many as

  /** Every span adds one opening and one closing tag, and nothing else. */
  lemma {:induction false} SpansCount(tags: set<string>, mark: char, width: nat, open: string, s: string, t: string)
    requires (mark == '`' || mark == '*') && 1 <= width <= 2 && NewPair(tags, open, s)
    ensures multiset(TagsOf(Spans(mark, width, open, Closing(open), s)))[t]
      == multiset(TagsOf(s))[t] + if t == open || t == Closing(open) then |SpanContents(mark, width, s)| else 0
    decreases |s|
  {
    if s != "" {
      var close, rest := Closing(open), s[Consumed(mark, width, s)..];
      OutputTags(tags, mark, width, open, s);
      SpansCount(tags, mark, width, open, rest, t);
      if Plain(mark, s) == 0 && SpanLength(mark, width, s) > 0 {
        var content, rest' := SpanPieceTags(tags, mark, width, open, close, s);
        SpanContentsFirst(mark, width, s, content, rest);
        PairCount(open, TagsOf(content), close, TagsOf(rest), t);
      } else {
        PlainParts(tags, mark, width, open, s);
      }
    }
  }

  lemma PlainParts(tags: set<string>, mark: char, width: nat, open: string, s: string)
    requires (mark == '`' || mark == '*') && 1 <= width <= 2 && NewPair(tags, open, s)
    requires s != "" && !(Plain(mark, s) == 0 && SpanLength(mark, width, s) > 0)
    ensures var rest := s[Consumed(mark, width, s)..];
      && TagsOf(Piece(mark, width, open, Closing(open), s)) + TagsOf(rest) == TagsOf(s)
      && SpanContents(mark, width, s) == SpanContents(mark, width, rest)
  {
    var rest := s[Consumed(mark, width, s)..];
    PieceTags(tags, mark, width, open, Closing(open), s);
    assert [] + TagsOf(rest) == TagsOf(rest);
    assert [] + SpanContents(mark, width, rest) == SpanContents(mark, width, rest);
  }

  lemma PairCount(open: string, inner: seq<string>, close: string, rest: seq<string>, t: string)
    requires open != close
    ensures multiset([open] + inner + [close])[t] + multiset(rest)[t]
      == multiset(inner + rest)[t] + if t == open || t == close then 1 else 0
  {
  }

  // ----- the three kinds of spans

  lemma {:induction false} TagsAreIn(tags: set<string>, s: string)
    requires (forall t :: t in tags ==> TagShape(t)) && OnlyTags(tags, s)
    ensures forall t :: t in TagsOf(s) ==> t in tags
  {
    if s != "" {
      SafeSuffix(tags, s, 1);
      TagsAreIn(tags, s[1..]);
      if s[0] == '<' {
        assert s[0..] == s;
        var t :| t in tags && t <= s;
        TagAtIs(s, t);
      }
    }
  }

  lemma TagAtIs(s: string, t: string)
    requires TagShape(t) && t <= s
    ensures TagAt(s) == t
  {
    assert forall i :: 0 <= i < |t| ==> s[i] == t[i];
    assert RunWhile(NotClosing, s) == |t| - 1;
  }

  const CODE: set<string> := {"<code>", "</code>"}
  const STRONG: set<string> := {"<strong>", "</strong>"}
  const EM: set<string> := {"<em>", "</em>"}

  /** The two tags of a kind. */
  ghost predicate Pair(open: string, close: string) {
    TagShape(open) && TagShape(close) && Opens(open) && !Opens(close) && Closing(open) == close
  }

  lemma CodePair()
    ensures Pair("<code>", "</code>")
  {
  }

  lemma StrongPair()
    ensures Pair("<strong>", "</strong>")
  {
  }

  lemma EmPair()
    ensures Pair("<em>", "</em>")
  {
  }

  lemma Shapes()
    ensures forall t :: t in CODE + STRONG + EM ==> TagShape(t)
    ensures EndRight(CODE + STRONG + EM)
  {
    CodePair();
    StrongPair();
    EmPair();
  }

  lemma NoMarksInside()
    ensures WellShaped(CODE + STRONG + EM)
  {
  }

  /** Tags of one kind are not those of another. */
  lemma NewKind(tags: set<string>, open: string, close: string, s: string)
    requires tags <= CODE + STRONG + EM && Pair(open, close) && OnlyTags(tags, s)
    requires open !in tags && close !in tags
    ensures NewPair(tags, open, s)
  {
    Shapes();
    NoMarksInside();
    TagsAreIn(tags, s);
    forall t | t in TagsOf(s) && Opens(t)
      ensures Closing(t) != close
    {
      if Closing(t) == close {
        SameOpening(t, open);
      }
    }
  }

  lemma SameOpening(t: string, open: string)
    requires Opens(t) && Opens(open) && Closing(t) == Closing(open)
    ensures t == open
  {
    assert Closing(t)[2..] == t[1..] && Closing(open)[2..] == open[1..];
    assert t == [t[0]] + t[1..] && open == [open[0]] + open[1..];
  }

  /** The text after code spans, and after bold spans. */
  function AfterCode(text: string): string {
    Spans('`', 1, "<code>", "</code>", EscapeHtml(text))
  }

  function AfterBold(text: string): string {
    Spans('*', 2, "<strong>", "</strong>", AfterCode(text))
  }

  lemma Wider(tags: set<string>, more: set<string>, s: string)
    requires tags <= more && OnlyTags(tags, s)
    ensures OnlyTags(more, s)
  {
  }

  /** What each pass finds. */
  lemma CodePass(text: string)
    ensures TagsOf(EscapeHtml(text)) == [] && '<' !in EscapeHtml(text) && NewPair({}, "<code>", EscapeHtml(text))
  {
    EscapeIsOnePass(text);
    EscapedHasNoBracket(text);
    NoTags(EscapeHtml(text));
    NoBracketIsSafe({}, EscapeHtml(text));
    CodePair();
    NewKind({}, "<code>", "</code>", EscapeHtml(text));
  }

  lemma BoldPass(text: string)
    ensures NewPair(CODE, "<strong>", AfterCode(text))
  {
    CodePass(text);
    NoMarksInside();
    NoBracketIsSafe(CODE, EscapeHtml(text));
    SpansAreSafe(CODE, '`', 1, "<code>", "</code>", EscapeHtml(text));
    StrongPair();
    NewKind(CODE, "<strong>", "</strong>", AfterCode(text));
  }

  lemma BoldIsSafe(tags: set<string>, text: string)
    requires tags == CODE + STRONG
    ensures OnlyTags(tags, AfterBold(text))
  {
    BoldPass(text);
    Fewer(tags);
    Wider(CODE, tags, AfterCode(text));
    SpansAreSafe(tags, '*', 2, "<strong>", "</strong>", AfterCode(text));
  }

  lemma Fewer(tags: set<string>)
    requires tags <= CODE + STRONG + EM
    ensures WellShaped(tags)
  {
    NoMarksInside();
    forall t | t in tags
      ensures t != "" && '`' !in t && '*' !in t && forall i :: 0 < i < |t| ==> t[i] != '<'
    {
      assert t in CODE + STRONG + EM;
    }
  }

  lemma ItalicPass(text: string)
    ensures NewPair(CODE + STRONG, "<em>", AfterBold(text))
  {
    BoldIsSafe(CODE + STRONG, text);
    EmPair();
    NewKind(CODE + STRONG, "<em>", "</em>", AfterBold(text));
  }

  lemma InlineIsItalic(text: string)
    ensures FormatInline(EscapeHtml(text)) == Spans('*', 1, "<em>", "</em>", AfterBold(text))
  {
  }

  /** How often a tag occurs: once for each span of its kind. */
  lemma InlineCount(text: string, t: string)
    ensures multiset(TagsOf(FormatInline(EscapeHtml(text))))[t]
      == (if t == "<code>" || t == "</code>" then |SpanContents('`', 1, EscapeHtml(text))| else 0)
         + (if t == "<strong>" || t == "</strong>" then |SpanContents('*', 2, AfterCode(text))| else 0)
         + (if t == "<em>" || t == "</em>" then |SpanContents('*', 1, AfterBold(text))| else 0)
  {
    CodePass(text);
    BoldPass(text);
    ItalicPass(text);
    CodePair();
    StrongPair();
    EmPair();
    InlineIsItalic(text);
    SpansCount({}, '`', 1, "<code>", EscapeHtml(text), t);
    SpansCount(CODE, '*', 2, "<strong>", AfterCode(text), t);
    SpansCount(CODE + STRONG, '*', 1, "<em>", AfterBold(text), t);
  }

  /** Whatever the text, opening and closing tags of each kind are equal in number. */
  lemma TagsComeInPairs(text: string)
    ensures var tags := multiset(TagsOf(FormatInline(EscapeHtml(text))));
      && tags["<code>"] == tags["</code>"] && tags["<strong>"] == tags["</strong>"] && tags["<em>"] == tags["</em>"]
  {
    InlineCount(text, "<code>");
    InlineCount(text, "</code>");
    InlineCount(text, "<strong>");
    InlineCount(text, "</strong>");
    InlineCount(text, "<em>");
    InlineCount(text, "</em>");
  }

  /**
   The tags of the formatted text nest exactly when the code tags within each bold span nest, and
   the code and bold tags within each italic span: no such span holds a part of another.
   */
  lemma NestsExactly(text: string)
    ensures Nested(TagsOf(FormatInline(EscapeHtml(text)))) <==>
      AllNested(SpanContents('*', 2, AfterCode(text))) && AllNested(SpanContents('*', 1, AfterBold(text)))
  {
    CodePass(text);
    BoldPass(text);
    ItalicPass(text);
    CodePair();
    StrongPair();
    EmPair();
    InlineIsItalic(text);
    SpansNest({}, '`', 1, "<code>", EscapeHtml(text), []);
    SpansNest(CODE, '*', 2, "<strong>", AfterCode(text), []);
    SpansNest(CODE + STRONG, '*', 1, "<em>", AfterBold(text), []);
    NoTagsInside('`', 1, EscapeHtml(text));
  }

  lemma {:induction false} NoTagsInside(mark: char, width: nat, s: string)
    requires 1 <= width <= 2 && '<' !in s
    ensures AllNested(SpanContents(mark, width, s))
    decreases |s|
  {
    if s != "" {
      var inside, rest := SpanLength(mark, width, s), s[Consumed(mark, width, s)..];
      NoTagsInside(mark, width, rest);
      if Plain(mark, s) == 0 && inside > 0 {
        var content := s[width..width + inside];
        assert forall i :: 0 <= i < |content| ==> content[i] == s[width + i];
        NoTags(content);
        SpanContentsFirst(mark, width, s, content, rest);
        FirstNested(content, SpanContents(mark, width, rest));
      } else {
        assert SpanContents(mark, width, s) == [] + SpanContents(mark, width, rest);
      }
    }
  }

  // ----- a text whose tags do not nest

  lemma PlainFirst(mark: char, width: nat, open: string, close: string, plain: string, rest: string)
    requires 1 <= width <= 2 && plain != "" && mark !in plain && (rest != "" ==> rest[0] == mark)
    ensures Spans(mark, width, open, close, plain + rest) == plain + Spans(mark, width, open, close, rest)
    ensures SpanContents(mark, width, plain + rest) == SpanContents(mark, width, rest)
  {
    var s := plain + rest;
    PlainIs(mark, s, |plain|);
    assert s[..|plain|] == plain && s[|plain|..] == rest;
    assert [] + SpanContents(mark, width, rest) == SpanContents(mark, width, rest);
  }

  lemma SpanFirst(mark: char, open: string, close: string, content: string, rest: string)
    requires content != "" && mark !in content
    ensures var s := [mark] + content + [mark] + rest;
      && Spans(mark, 1, open, close, s) == open + content + close + Spans(mark, 1, open, close, rest)
      && SpanContents(mark, 1, s) == [content] + SpanContents(mark, 1, rest)
  {
    var s := [mark] + content + [mark] + rest;
    SpanAtFront(mark, s, content, rest);
    SpanPiece(mark, 1, open, close, s);
    SpanContentsFirst(mark, 1, s, content, rest);
  }

  lemma SpanAtFront(mark: char, s: string, content: string, rest: string)
    requires content != "" && mark !in content && s == [mark] + content + [mark] + rest
    ensures Plain(mark, s) == 0 && SpanLength(mark, 1, s) == |content|
    ensures s[1..1 + |content|] == content && s[2 + |content|..] == rest
  {
    var tail := s[1..];
    assert tail == content + ([mark] + rest);
    PlainIs(mark, s, 0);
    PlainIs(mark, tail, |content|);
    assert s[1 + |content|..] == [mark] + rest;
  }

  lemma SingleFirst(mark: char, open: string, close: string, rest: string)
    requires rest == "" || rest[0] != mark
    ensures Spans(mark, 2, open, close, [mark] + rest) == [mark] + Spans(mark, 2, open, close, rest)
  {
    var s := [mark] + rest;
    PlainIs(mark, s, 0);
    assert s[1..] == rest;
  }

  /** Italic marks around the end of a code span: the tags cross. */
  lemma CrossingTags(x: string, y: string, z: string)
    requires Calm(x) && Calm(y) && Calm(z)
    ensures var text := "`" + (x + "*" + y) + "`" + (z + "*");
      && FormatInline(EscapeHtml(text)) == ("<code>" + x) + ("<em>" + (y + "</code>" + z) + "</em>")
      && !Nested(TagsOf(FormatInline(EscapeHtml(text))))
  {
    var text := "`" + (x + "*" + y) + "`" + (z + "*");
    var front, crossed := "<code>" + x, y + "</code>" + z;
    CalmText(x, y, z, text);
    CrossingCode(x, y, z, text);
    assert AfterCode(text) == front + ("*" + (crossed + "*"));
    CrossingBold(front, crossed, AfterCode(text));
    CrossingItalic(front, crossed, AfterBold(text));
    InlineIsItalic(text);
    CrossedTag(y, z);
    NestsExactly(text);
    assert SpanContents('*', 1, AfterBold(text))[0] == crossed;
  }

  lemma CalmText(x: string, y: string, z: string, text: string)
    requires Calm(x) && Calm(y) && Calm(z) && text == "`" + (x + "*" + y) + "`" + (z + "*")
    ensures EscapeHtml(text) == text
  {
    assert forall c :: c in text ==> c in x || c in y || c in z || c == '`' || c == '*';
    EscapeIsOnePass(text);
    NothingToEscape(text);
  }

  lemma {:induction false} NothingToEscape(s: string)
    requires forall c :: c in s ==> EscapeChar(c) == [c]
    ensures EscapeEach(s) == s
  {
    if s != "" {
      assert s[0] in s;
      NothingToEscape(s[1..]);
    }
  }

  lemma CrossingCode(x: string, y: string, z: string, text: string)
    requires Calm(x) && Calm(y) && Calm(z)
    requires text == "`" + (x + "*" + y) + "`" + (z + "*") == EscapeHtml(text)
    ensures AfterCode(text) == "<code>" + (x + "*" + y) + "</code>" + (z + "*")
  {
    var content, rest := x + "*" + y, z + "*";
    assert text == ['`'] + content + ['`'] + rest;
    SpanFirst('`', "<code>", "</code>", content, rest);
    PlainFirst('`', 1, "<code>", "</code>", rest, "");
    assert rest + "" == rest;
  }

  lemma CrossingBold(front: string, crossed: string, s: string)
    requires front != "" && crossed != "" && '*' !in front && '*' !in crossed
    requires s == front + ("*" + (crossed + "*"))
    ensures Spans('*', 2, "<strong>", "</strong>", s) == s
  {
    PlainFirst('*', 2, "<strong>", "</strong>", front, "*" + (crossed + "*"));
    SingleFirst('*', "<strong>", "</strong>", crossed + "*");
    PlainFirst('*', 2, "<strong>", "</strong>", crossed, "*");
    assert ['*'] + "" == "*";
    SingleFirst('*', "<strong>", "</strong>", "");
  }

  lemma CrossingItalic(front: string, crossed: string, s: string)
    requires front != "" && crossed != "" && '*' !in front && '*' !in crossed
    requires s == front + ("*" + (crossed + "*"))
    ensures Spans('*', 1, "<em>", "</em>", s) == front + ("<em>" + crossed + "</em>")
    ensures SpanContents('*', 1, s) == [crossed]
  {
    PlainFirst('*', 1, "<em>", "</em>", front, "*" + (crossed + "*"));
    LastSpan('*', "<em>", "</em>", crossed);
  }

  lemma LastSpan(mark: char, open: string, close: string, content: string)
    requires content != "" && mark !in content
    ensures var s := [mark] + (content + [mark]);
      Spans(mark, 1, open, close, s) == open + content + close && SpanContents(mark, 1, s) == [content]
  {
    SpanFirst(mark, open, close, content, "");
    assert [mark] + content + [mark] + "" == [mark] + (content + [mark]);
    assert open + content + close + "" == open + content + close;
  }

  lemma CrossedTag(y: string, z: string)
    requires Calm(y) && Calm(z)
    ensures TagsOf(y + "</code>" + z) == ["</code>"] && !Nested(["</code>"])
  {
    CodePair();
    CalmHasNoBracket(y);
    CalmHasNoBracket(z);
    NoTags(y);
    NoTags(z);
    TagIsItself("</code>");
    TagsAppend(y, "</code>");
    ClosedAppend(y, "</code>");
    TagsAppend(y + "</code>", z);
  }

  lemma CalmHasNoBracket(s: string)
    requires Calm(s)
    ensures '<' !in s
  {
  }

  /** Nothing that is escaped or a mark. */
  ghost predicate Calm(s: string) {
    forall c :: c in s ==> EscapeChar(c) == [c] && c != '`' && c != '*'
  }
}
