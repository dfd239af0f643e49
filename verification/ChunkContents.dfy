/**
 What stands in a chunk: the texts of its units and nothing else but the heading line and the
 overlap; and that every piece of every paragraph stands in some chunk.
 */
module ChunkContents {
  import opened Arithmetic
  import opened Sequences
  import opened Strings
  import opened Wrappers
  import opened GreedyPacking
  import opened Chunker

  // ----- texts one after the other

  const BLANK_LINE := "\n\n"

  lemma {:induction false} JoinSpells(parts: seq<string>)
    ensures Spells(Join(parts), parts, BLANK_LINE)
  {
    if |parts| > 1 {
      var head := parts[0] + BLANK_LINE;
      JoinSpells(parts[1..]);
      assert Join(parts)[|head|..] == Join(parts[1..]);
    }
  }

  ghost predicate StandsAt(text: string, part: string, at: nat) {
    at + |part| <= |text| && text[at..at + |part|] == part
  }

  lemma {:induction false} SpelledPart(text: string, parts: seq<string>, i: nat) returns (at: nat)
    requires Spells(text, parts, BLANK_LINE) && i < |parts|
    ensures StandsAt(text, parts[i], at)
  {
    if i == 0 {
      at := 0;
    } else {
      var n := |parts[0]| + 2;
      at := SpelledPart(text[n..], parts[1..], i - 1);
      assert text[n..][at..at + |parts[i]|] == text[n + at..n + at + |parts[i]|];
      at := n + at;
    }
  }

  lemma PartOfPart(text: string, part: string, at: nat, inner: string, i: nat)
    requires StandsAt(text, part, at) && StandsAt(part, inner, i)
    ensures StandsAt(text, inner, at + i)
  {
    SliceOfSlice(text, at, at + |part|, i, i + |inner|);
  }

  // ----- one chunk

  ghost predicate NoHeading(unit: ParagraphUnit) {
    unit.sectionHeading == None || unit.sectionHeading == Some("")
  }

  /** The heading of the first unit that has one. */
  ghost predicate IsFirstHeading(units: seq<ParagraphUnit>, heading: Option<string>) {
    if heading.None? then forall i :: 0 <= i < |units| ==> NoHeading(units[i])
    else
      exists i ::
        && 0 <= i < |units| && units[i].sectionHeading == heading && !NoHeading(units[i])
        && forall h :: 0 <= h < i ==> NoHeading(units[h])
  }

  ghost predicate IsLastHeading(units: seq<ParagraphUnit>, heading: Option<string>) {
    if heading.None? then forall i :: 0 <= i < |units| ==> NoHeading(units[i])
    else
      exists i ::
        && 0 <= i < |units| && units[i].sectionHeading == heading && !NoHeading(units[i])
        && forall h :: i < h < |units| ==> NoHeading(units[h])
  }

  ghost predicate IsFirstPage(units: seq<ParagraphUnit>, page: Option<int>) {
    if page.None? then forall i :: 0 <= i < |units| ==> units[i].page == None
    else
      exists i ::
        && 0 <= i < |units| && units[i].page == page
        && forall h :: 0 <= h < i ==> units[h].page == None
  }

  lemma {:induction false} FirstHeadingExactly(units: seq<ParagraphUnit>)
    ensures IsFirstHeading(units, FirstHeading(units))
  {
    if units != [] && NoHeading(units[0]) {
      FirstHeadingExactly(units[1..]);
      assert forall i :: 1 <= i < |units| ==> units[i] == units[1..][i - 1];
      if FirstHeading(units).Some? {
        var i :| 0 <= i < |units[1..]| && units[1..][i].sectionHeading == FirstHeading(units)
          && !NoHeading(units[1..][i]) && forall h :: 0 <= h < i ==> NoHeading(units[1..][h]);
        assert units[i + 1].sectionHeading == FirstHeading(units);
      }
    }
  }

  lemma {:induction false} LastHeadingExactly(units: seq<ParagraphUnit>)
    ensures IsLastHeading(units, LastHeading(units))
  {
    if units != [] && NoHeading(units[|units| - 1]) {
      LastHeadingExactly(units[..|units| - 1]);
    }
  }

  lemma {:induction false} FirstPageExactly(units: seq<ParagraphUnit>)
    ensures IsFirstPage(units, FirstPage(units))
  {
    if units != [] && units[0].page == None {
      FirstPageExactly(units[1..]);
      assert forall i :: 1 <= i < |units| ==> units[i] == units[1..][i - 1];
      if FirstPage(units).Some? {
        var i :| 0 <= i < |units[1..]| && units[1..][i].page == FirstPage(units)
          && forall h :: 0 <= h < i ==> units[1..][h].page == None;
        assert units[i + 1].page == FirstPage(units);
      }
    }
  }

  lemma {:induction false} TextsExactly(units: seq<ParagraphUnit>)
    ensures |Texts(units)| == |units| && forall i :: 0 <= i < |units| ==> Texts(units)[i] == units[i].text
  {
    if units != [] {
      TextsExactly(units[1..]);
    }
  }

  /** The line stamped in front: the first heading, unless the first unit is a heading itself. */
  ghost function Stamp(cfg: Config, units: seq<ParagraphUnit>, heading: Option<string>): seq<string> {
    if heading == None || (units != [] && cfg.heading(units[0].text).Some?) then [] else ["# " + heading.value]
  }

  ghost function IfAny(text: string): seq<string> {
    if text == "" then [] else [text]
  }

  /**
   Formatted content is the heading line, if one is stamped, the overlap, if there is one, and
   the body, with a blank line between each; the body is the texts of all units, in order.
   */
  lemma ContentExactly(cfg: Config, units: seq<ParagraphUnit>, overlap: string)
    returns (heading: Option<string>, texts: seq<string>, body: string)
    ensures IsFirstHeading(units, heading)
    ensures |texts| == |units| && forall i :: 0 <= i < |units| ==> texts[i] == units[i].text
    ensures Spells(body, texts, BLANK_LINE)
    ensures Spells(FormatContent(cfg, units, overlap), Stamp(cfg, units, heading) + IfAny(overlap) + IfAny(body),
      BLANK_LINE)
  {
    heading, texts := FirstHeading(units), Texts(units);
    body := Join(texts);
    FirstHeadingExactly(units);
    TextsExactly(units);
    JoinSpells(texts);
    JoinSpells(HeadingLine(cfg, units) + NonEmpty(overlap) + NonEmpty(body));
    assert HeadingLine(cfg, units) == Stamp(cfg, units, heading);
  }

  /** What a chunk carries over from the content before: the text of its last tokens, or all of it. */
  ghost predicate IsTail(cfg: Config, before: string, overlap: string) {
    var tokens := cfg.tokenizer.encode(before);
    if cfg.overlap <= 0 || before == "" then overlap == ""
    else if |tokens| <= cfg.overlap then overlap == before
    else exists dropped :: dropped == |tokens| - cfg.overlap && overlap == cfg.tokenizer.decode(tokens[dropped..])
  }

  /** The groups of units behind the chunks of a document. */
  ghost function GroupsOf(cfg: Config, segments: seq<Segment>): seq<seq<ParagraphUnit>>
    requires cfg.chunkSize >= 1
  {
    Pack(FitsIn(cfg), [], Expand(cfg, UnitsOf(cfg, Paragraphs(cfg, segments))))
  }

  /** Everything about chunk `k` of a document. */
  lemma ChunkExactly(cfg: Config, segments: seq<Segment>, k: nat)
    returns (overlap: string, heading: Option<string>, texts: seq<string>, body: string)
    requires cfg.chunkSize >= 1 && Chunked(cfg, segments).Ok? && k < |Chunked(cfg, segments).value|
    ensures
      var chunks, groups := Chunked(cfg, segments).value, GroupsOf(cfg, segments);
      && |groups| == |chunks|
      && IsTail(cfg, if k == 0 then "" else chunks[k - 1].content, overlap)
      && IsFirstHeading(groups[k], heading)
      && (|texts| == |groups[k]| && forall i :: 0 <= i < |texts| ==> texts[i] == groups[k][i].text)
      && Spells(body, texts, BLANK_LINE)
      && Spells(chunks[k].content, Stamp(cfg, groups[k], heading) + IfAny(overlap) + IfAny(body), BLANK_LINE)
      && chunks[k].chunkIndex == k && chunks[k].metadata.chunkIndex == k
      && IsFirstPage(groups[k], chunks[k].metadata.page)
      && IsLastHeading(groups[k], chunks[k].metadata.sectionHeading)
  {
    var groups := GroupsOf(cfg, segments);
    var chunks := Render(cfg, groups);
    overlap := if k == 0 then "" else TakeOverlap(cfg, chunks[k - 1].content);
    RenderAt(cfg, groups, k);
    heading, texts, body := MadeExactly(cfg, k, groups[k], overlap);
  }

  lemma MadeExactly(cfg: Config, index: nat, units: seq<ParagraphUnit>, overlap: string)
    returns (heading: Option<string>, texts: seq<string>, body: string)
    ensures var chunk := MakeChunk(cfg, index, units, overlap);
      && IsFirstHeading(units, heading)
      && (|texts| == |units| && forall i :: 0 <= i < |texts| ==> texts[i] == units[i].text)
      && Spells(body, texts, BLANK_LINE)
      && Spells(chunk.content, Stamp(cfg, units, heading) + IfAny(overlap) + IfAny(body), BLANK_LINE)
      && chunk.chunkIndex == index && chunk.metadata.chunkIndex == index
      && IsFirstPage(units, chunk.metadata.page) && IsLastHeading(units, chunk.metadata.sectionHeading)
  {
    heading, texts, body := ContentExactly(cfg, units, overlap);
    FirstPageExactly(units);
    LastHeadingExactly(units);
  }

  /** What a body spells out stands in a content that ends with that body. */
  lemma StandsInBody(content: string, before: seq<string>, body: string, texts: seq<string>, i: nat)
    returns (at: nat)
    requires Spells(body, texts, BLANK_LINE) && i < |texts| && Spells(content, before + IfAny(body), BLANK_LINE)
    ensures StandsAt(content, texts[i], at)
  {
    at := SpelledPart(body, texts, i);
    if body == "" {
      assert content[0..0] == "" && texts[i] == "";
      at := 0;
    } else {
      var start := SpelledPart(content, before + [body], |before|);
      PartOfPart(content, body, start, texts[i], at);
      at := start + at;
    }
  }

  /** The text of each unit of the group stands in the chunk. */
  lemma UnitStands(cfg: Config, segments: seq<Segment>, k: nat, i: nat) returns (at: nat)
    requires cfg.chunkSize >= 1 && Chunked(cfg, segments).Ok? && k < |Chunked(cfg, segments).value|
    requires |GroupsOf(cfg, segments)| == |Chunked(cfg, segments).value| && i < |GroupsOf(cfg, segments)[k]|
    ensures StandsAt(Chunked(cfg, segments).value[k].content, GroupsOf(cfg, segments)[k][i].text, at)
  {
    var overlap, heading, texts, body := ChunkExactly(cfg, segments, k);
    at := StandsInBody(Chunked(cfg, segments).value[k].content,
      Stamp(cfg, GroupsOf(cfg, segments)[k], heading) + IfAny(overlap), body, texts, i);
  }

  /** So the text of each hard-split unit stands in some chunk. */
  lemma PieceStands(cfg: Config, segments: seq<Segment>, n: nat) returns (k: nat, at: nat)
    requires cfg.chunkSize >= 1 && Chunked(cfg, segments).Ok?
    requires n < |Expand(cfg, UnitsOf(cfg, Paragraphs(cfg, segments)))|
    ensures var chunks, pieces := Chunked(cfg, segments).value, Expand(cfg, UnitsOf(cfg, Paragraphs(cfg, segments)));
      k < |chunks| && StandsAt(chunks[k].content, pieces[n].text, at)
  {
    var i;
    PackFlattens(FitsIn(cfg), [], Expand(cfg, UnitsOf(cfg, Paragraphs(cfg, segments))));
    k, i := GroupHolds(GroupsOf(cfg, segments), n);
    at := UnitStands(cfg, segments, k, i);
  }

  lemma {:induction false} GroupHolds<T>(groups: seq<seq<T>>, n: nat) returns (k: nat, i: nat)
    requires n < |Flatten(groups)|
    ensures k < |groups| && i < |groups[k]| && groups[k][i] == Flatten(groups)[n]
    decreases |groups|
  {
    if n < |groups[0]| {
      k, i := 0, n;
    } else {
      k, i := GroupHolds(groups[1..], n - |groups[0]|);
      k := k + 1;
    }
  }

  // ----- from the segments to the units

  ghost function ParagraphsBefore(cfg: Config, segments: seq<Segment>, i: nat): nat
    requires i <= |segments|
  {
    if i == 0 then 0 else ParagraphsBefore(cfg, segments, i - 1) + |cfg.split(segments[i - 1].text)|
  }

  lemma {:induction false} ParagraphsAppend(cfg: Config, a: seq<Segment>, b: seq<Segment>)
    ensures Paragraphs(cfg, a + b) == Paragraphs(cfg, a) + Paragraphs(cfg, b)
  {
    if a == [] {
      assert a + b == b;
    } else {
      ParagraphsAppend(cfg, a[1..], b);
      assert (a + b)[1..] == a[1..] + b;
      Reassociate(Paged(cfg.split(a[0].text), PageOf(a[0].page)), Paragraphs(cfg, a[1..]), Paragraphs(cfg, b));
    }
  }

  lemma {:induction false} ParagraphCount(cfg: Config, segments: seq<Segment>, i: nat)
    requires i <= |segments|
    ensures |Paragraphs(cfg, segments[..i])| == ParagraphsBefore(cfg, segments, i)
  {
    if i > 0 {
      ParagraphCount(cfg, segments, i - 1);
      assert segments[..i] == segments[..i - 1] + [segments[i - 1]];
      ParagraphsAppend(cfg, segments[..i - 1], [segments[i - 1]]);
      assert |Paragraphs(cfg, [segments[i - 1]])| == |cfg.split(segments[i - 1].text)| by {
        assert [segments[i - 1]][1..] == [];
      }
    }
  }

  /** The last of the first `n` paragraphs that is a heading gives the heading. */
  ghost predicate IsHeadingAt(cfg: Config, paragraphs: seq<(string, Option<int>)>, n: nat, heading: Option<string>)
    requires n <= |paragraphs|
  {
    if heading.None? then forall i :: 0 <= i < n ==> cfg.heading(paragraphs[i].0).None?
    else
      exists i ::
        && 0 <= i < n && cfg.heading(paragraphs[i].0) == heading
        && forall h :: i < h < n ==> cfg.heading(paragraphs[h].0).None?
  }

  lemma {:induction false} HeadingBeforeExactly(cfg: Config, paragraphs: seq<(string, Option<int>)>, n: nat)
    requires n <= |paragraphs|
    ensures IsHeadingAt(cfg, paragraphs, n, HeadingBefore(cfg, paragraphs, n))
  {
    if n > 0 {
      HeadingBeforeExactly(cfg, paragraphs, n - 1);
    }
  }

  lemma ParagraphExactly(cfg: Config, segments: seq<Segment>, i: nat, j: nat)
    requires i < |segments| && j < |cfg.split(segments[i].text)|
    ensures
      var paragraphs, n := Paragraphs(cfg, segments), ParagraphsBefore(cfg, segments, i) + j;
      && |paragraphs| == ParagraphsBefore(cfg, segments, |segments|)
      && n < |paragraphs| && paragraphs[n] == (cfg.split(segments[i].text)[j], PageOf(segments[i].page))
  {
    var before, after := segments[..i], segments[i..];
    assert segments == before + after && after[0] == segments[i];
    ParagraphsAppend(cfg, before, after);
    ParagraphCount(cfg, segments, i);
    assert segments[..|segments|] == segments;
    ParagraphCount(cfg, segments, |segments|);
    assert Paged(cfg.split(segments[i].text), PageOf(segments[i].page))[j] == Paragraphs(cfg, after)[j];
  }

  /**
   Paragraph `j` of segment `i` becomes one unit, in order: with its text, the page number of its
   segment, and the last heading of the document up to and including itself.
   */
  lemma UnitExactly(cfg: Config, segments: seq<Segment>, i: nat, j: nat)
    requires i < |segments| && j < |cfg.split(segments[i].text)|
    ensures
      var paragraphs, n := Paragraphs(cfg, segments), ParagraphsBefore(cfg, segments, i) + j;
      && |UnitsOf(cfg, paragraphs)| == |paragraphs| == ParagraphsBefore(cfg, segments, |segments|)
      && n < |paragraphs| && paragraphs[n].0 == cfg.split(segments[i].text)[j]
      && var unit := UnitsOf(cfg, paragraphs)[n];
        && unit.text == paragraphs[n].0
        && (forall page :: unit.page == Some(page) <==> segments[i].page == PageNumber(page))
        && IsHeadingAt(cfg, paragraphs, n + 1, unit.sectionHeading)
  {
    ParagraphExactly(cfg, segments, i, j);
    HeadingBeforeExactly(cfg, Paragraphs(cfg, segments), ParagraphsBefore(cfg, segments, i) + j + 1);
  }

  // ----- from the units to their pieces

  /** Piece `m` of a paragraph: itself, or the text of the tokens from `m * chunkSize` on. */
  ghost function PieceText(cfg: Config, text: string, m: nat): string
    requires cfg.chunkSize >= 1
  {
    var tokens := cfg.tokenizer.encode(text);
    if |tokens| <= cfg.chunkSize then text
    else
      var from := m * cfg.chunkSize;
      cfg.tokenizer.decode(tokens[Min(from, |tokens|)..Min(from + cfg.chunkSize, |tokens|)])
  }

  /** There is a piece `m`: only long paragraphs have more than one, and none starts behind the last token. */
  ghost predicate HasPiece(cfg: Config, text: string, m: nat) {
    m == 0 || (CountTokens(cfg, text) > cfg.chunkSize && m * cfg.chunkSize < CountTokens(cfg, text))
  }

  lemma {:induction false} SliceExactly(tokens: seq<int>, size: nat, m: nat)
    requires size >= 1
    ensures m < |TokenSlices(tokens, size)| <==> m * size < |tokens|
    ensures m < |TokenSlices(tokens, size)| ==>
      TokenSlices(tokens, size)[m] == tokens[Min(m * size, |tokens|)..Min(m * size + size, |tokens|)]
    decreases m
  {
    if m > 0 {
      assert m * size == (m - 1) * size + size && (m - 1) * size >= 0;
      if |tokens| > size {
        SliceExactly(tokens[size..], size, m - 1);
        SliceBehindFirst(tokens, size, (m - 1) * size);
      }
    } else {
      FirstSlice(tokens, size);
    }
  }

  lemma FirstSlice(tokens: seq<int>, size: nat)
    requires size >= 1
    ensures tokens != [] ==>
      TokenSlices(tokens, size) != [] && TokenSlices(tokens, size)[0] == tokens[0..Min(size, |tokens|)]
  {
  }

  lemma SliceBehindFirst(tokens: seq<int>, size: nat, from: nat)
    requires size < |tokens|
    ensures var rest := tokens[size..];
      rest[Min(from, |rest|)..Min(from + size, |rest|)]
      == tokens[Min(from + size, |tokens|)..Min(from + size + size, |tokens|)]
  {
  }

  /** Hard splitting keeps page and heading, and its pieces are the token slices in order. */
  lemma PieceExactly(cfg: Config, paragraph: ParagraphUnit, m: nat)
    requires cfg.chunkSize >= 1
    ensures var pieces := HardSplit(cfg, paragraph);
      && (m < |pieces| <==> HasPiece(cfg, paragraph.text, m))
      && (m < |pieces| ==> pieces[m] == paragraph.(text := PieceText(cfg, paragraph.text, m)))
  {
    var tokens := cfg.tokenizer.encode(paragraph.text);
    if |tokens| > cfg.chunkSize {
      SliceExactly(tokens, cfg.chunkSize, m);
    }
  }

  ghost function Pieces(cfg: Config, units: seq<ParagraphUnit>): seq<seq<ParagraphUnit>>
    requires cfg.chunkSize >= 1
  {
    seq(|units|, i requires 0 <= i < |units| => HardSplit(cfg, units[i]))
  }

  lemma {:induction false} ExpandFlattens(cfg: Config, units: seq<ParagraphUnit>)
    requires cfg.chunkSize >= 1
    ensures Expand(cfg, units) == Flatten(Pieces(cfg, units))
  {
    if units != [] {
      ExpandFlattens(cfg, units[1..]);
      assert Pieces(cfg, units)[1..] == Pieces(cfg, units[1..]);
    }
  }

  lemma FlattenAt<T>(groups: seq<seq<T>>, i: nat, m: nat)
    requires i < |groups| && m < |groups[i]|
    ensures var n := |Flatten(groups[..i])| + m;
      n < |Flatten(groups)| && Flatten(groups)[n] == groups[i][m]
  {
    assert groups == groups[..i] + groups[i..] && groups[i..][0] == groups[i];
    FlattenAppend(groups[..i], groups[i..]);
  }

  /** The hard-split units are the pieces of all paragraphs, in order. */
  lemma ExpandExactly(cfg: Config, units: seq<ParagraphUnit>, i: nat, m: nat)
    requires cfg.chunkSize >= 1 && i < |units| && m < |Pieces(cfg, units)[i]|
    ensures var n := |Flatten(Pieces(cfg, units)[..i])| + m;
      n < |Expand(cfg, units)| && Expand(cfg, units)[n] == Pieces(cfg, units)[i][m]
  {
    ExpandFlattens(cfg, units);
    FlattenAt(Pieces(cfg, units), i, m);
  }

  /** No text is left out: every piece of every paragraph of every segment stands in some chunk. */
  lemma EveryPieceStands(cfg: Config, segments: seq<Segment>, i: nat, j: nat, m: nat) returns (k: nat, at: nat)
    requires cfg.chunkSize >= 1 && Chunked(cfg, segments).Ok?
    requires i < |segments| && j < |cfg.split(segments[i].text)| && HasPiece(cfg, cfg.split(segments[i].text)[j], m)
    ensures var chunks := Chunked(cfg, segments).value;
      k < |chunks| && StandsAt(chunks[k].content, PieceText(cfg, cfg.split(segments[i].text)[j], m), at)
  {
    var n := ParagraphsBefore(cfg, segments, i) + j;
    UnitExactly(cfg, segments, i, j);
    var p := PieceOfUnit(cfg, UnitsOf(cfg, Paragraphs(cfg, segments)), n, m);
    k, at := PieceStands(cfg, segments, p);
  }

  lemma PieceOfUnit(cfg: Config, units: seq<ParagraphUnit>, n: nat, m: nat) returns (p: nat)
    requires cfg.chunkSize >= 1 && n < |units| && HasPiece(cfg, units[n].text, m)
    ensures p < |Expand(cfg, units)| && Expand(cfg, units)[p].text == PieceText(cfg, units[n].text, m)
  {
    PieceIsListed(cfg, units, n, m);
    ExpandExactly(cfg, units, n, m);
    p := |Flatten(Pieces(cfg, units)[..n])| + m;
  }

  lemma PieceIsListed(cfg: Config, units: seq<ParagraphUnit>, n: nat, m: nat)
    requires cfg.chunkSize >= 1 && n < |units| && HasPiece(cfg, units[n].text, m)
    ensures m < |Pieces(cfg, units)[n]| && Pieces(cfg, units)[n][m].text == PieceText(cfg, units[n].text, m)
  {
    PieceExactly(cfg, units[n], m);
  }
}
