/**
 Token-based document chunking: paragraphs become units, over-long units are cut into token
 slices, and a greedy packer fills chunks that start with the tail of the chunk before.

 The tokenizer and the two regular expressions on paragraphs are parameters, so every result
 holds for any choice of them; where a result needs a law of the tokenizer it says so.
 */
module Chunker {
  import opened Arithmetic
  import opened Sequences
  import opened Wrappers
  import opened GreedyPacking

  datatype Tokenizer = Tokenizer(encode: string -> seq<int>, decode: seq<int> -> string)

  /**
   `split` cuts a segment into its non-blank paragraphs, `heading` is what the heading pattern
   captures from a paragraph, if it matches.
   */
  datatype Config = Config(
    chunkSize: int, overlap: int, tokenizer: Tokenizer,
    split: string -> seq<string>, heading: string -> Option<string>)

  /** The value under the `page_number` key of a segment's metadata. */
  datatype PageValue = Missing | PageNumber(page: int) | NotAnInteger

  datatype Segment = Segment(text: string, page: PageValue)

  datatype ParagraphUnit = ParagraphUnit(text: string, page: Option<int>, sectionHeading: Option<string>)

  datatype Metadata = Metadata(chunkIndex: nat, page: Option<int>, sectionHeading: Option<string>)

  datatype ContentChunk = ContentChunk(content: string, chunkIndex: nat, metadata: Metadata)

  datatype ConfigError = OverlapNotSmaller

  // ----- paragraphs and their headings

  function PageOf(page: PageValue): Option<int> {
    if page.PageNumber? then Some(page.page) else None
  }

  /** The heading in force after a paragraph. */
  function NextHeading(cfg: Config, paragraph: string, current: Option<string>): Option<string> {
    if cfg.heading(paragraph).Some? then cfg.heading(paragraph) else current
  }

  /** All paragraphs of a document, each with the page of its segment. */
  function Paragraphs(cfg: Config, segments: seq<Segment>): seq<(string, Option<int>)> {
    if segments == [] then []
    else Paged(cfg.split(segments[0].text), PageOf(segments[0].page)) + Paragraphs(cfg, segments[1..])
  }

  function Paged(texts: seq<string>, page: Option<int>): seq<(string, Option<int>)> {
    seq(|texts|, i requires 0 <= i < |texts| => (texts[i], page))
  }

  /** The heading of the last paragraph before position `k` that is one. */
  function HeadingBefore(cfg: Config, paragraphs: seq<(string, Option<int>)>, k: nat): Option<string>
    requires k <= |paragraphs|
  {
    if k == 0 then None else NextHeading(cfg, paragraphs[k - 1].0, HeadingBefore(cfg, paragraphs, k - 1))
  }

  /** Each paragraph keeps its text and page; its heading is the last one up to and including itself. */
  function UnitsOf(cfg: Config, paragraphs: seq<(string, Option<int>)>): (units: seq<ParagraphUnit>)
    ensures |units| == |paragraphs|
  {
    seq(|paragraphs|, k requires 0 <= k < |paragraphs| =>
      ParagraphUnit(paragraphs[k].0, paragraphs[k].1, HeadingBefore(cfg, paragraphs, k + 1)))
  }

  lemma {:induction false} HeadingBeforePrefix(cfg: Config, a: seq<(string, Option<int>)>,
      b: seq<(string, Option<int>)>, k: nat)
    requires k <= |a|
    ensures HeadingBefore(cfg, a + b, k) == HeadingBefore(cfg, a, k)
  {
    if k > 0 {
      HeadingBeforePrefix(cfg, a, b, k - 1);
    }
  }

  lemma UnitsOfSnoc(cfg: Config, a: seq<(string, Option<int>)>, p: (string, Option<int>))
    ensures UnitsOf(cfg, a + [p])
      == UnitsOf(cfg, a) + [ParagraphUnit(p.0, p.1, NextHeading(cfg, p.0, HeadingBefore(cfg, a, |a|)))]
    ensures HeadingBefore(cfg, a + [p], |a + [p]|) == NextHeading(cfg, p.0, HeadingBefore(cfg, a, |a|))
  {
    forall k | 0 <= k <= |a|
      ensures HeadingBefore(cfg, a + [p], k) == HeadingBefore(cfg, a, k)
    {
      HeadingBeforePrefix(cfg, a, [p], k);
    }
  }

  method ParagraphUnits(cfg: Config, segments: seq<Segment>) returns (units: seq<ParagraphUnit>)
    ensures units == UnitsOf(cfg, Paragraphs(cfg, segments))
  {
    units := [];
    var currentHeading: Option<string> := None;
    ghost var done: seq<(string, Option<int>)> := [];
    ghost var all := Paragraphs(cfg, segments);
    for i := 0 to |segments|
      invariant units == UnitsOf(cfg, done)
      invariant currentHeading == HeadingBefore(cfg, done, |done|)
      invariant all == done + Paragraphs(cfg, segments[i..])
    {
      var page := PageOf(segments[i].page);
      var paragraphs := cfg.split(segments[i].text);
      ghost var start, pairs, later := done, Paged(paragraphs, page), Paragraphs(cfg, segments[i + 1..]);
      assert segments[i..][1..] == segments[i + 1..];
      for j := 0 to |paragraphs|
        invariant all == done + (pairs[j..] + later)
        invariant units == UnitsOf(cfg, done)
        invariant currentHeading == HeadingBefore(cfg, done, |done|)
      {
        UnitsOfSnoc(cfg, done, pairs[j]);
        currentHeading := NextHeading(cfg, paragraphs[j], currentHeading);
        units := units + [ParagraphUnit(paragraphs[j], page, currentHeading)];
        MoveOver(done, pairs, j, later);
        done := done + [pairs[j]];
      }
      assert pairs[|pairs|..] + later == later;
    }
    assert segments[|segments|..] == [] && done + [] == done;
  }

  // ----- hard splitting

  function CountTokens(cfg: Config, text: string): nat {
    |cfg.tokenizer.encode(text)|
  }

  function TokenSlices(tokens: seq<int>, size: nat): seq<seq<int>>
    requires size >= 1
    decreases |tokens|
  {
    if tokens == [] then []
    else if |tokens| <= size then [tokens]
    else [tokens[..size]] + TokenSlices(tokens[size..], size)
  }

  /** Cutting loses nothing; every slice but the last has the full size, and none is empty or longer. */
  lemma {:induction false} SlicesPartition(tokens: seq<int>, size: nat)
    requires size >= 1
    ensures var slices := TokenSlices(tokens, size);
      && Flatten(slices) == tokens
      && (forall i :: 0 <= i < |slices| ==> 1 <= |slices[i]| <= size)
      && (forall i :: 0 <= i < |slices| - 1 ==> |slices[i]| == size)
    decreases |tokens|
  {
    if |tokens| > size {
      SlicesPartition(tokens[size..], size);
      assert tokens[..size] + tokens[size..] == tokens;
    } else if tokens != [] {
      assert Flatten([tokens]) == tokens + [];
    }
  }

  /** One unit for each slice, with the page and the heading of the paragraph. */
  function SliceUnits(cfg: Config, paragraph: ParagraphUnit, slices: seq<seq<int>>): seq<ParagraphUnit> {
    seq(|slices|, i requires 0 <= i < |slices| => paragraph.(text := cfg.tokenizer.decode(slices[i])))
  }

  function HardSplit(cfg: Config, paragraph: ParagraphUnit): seq<ParagraphUnit>
    requires cfg.chunkSize >= 1
  {
    var tokens := cfg.tokenizer.encode(paragraph.text);
    if |tokens| <= cfg.chunkSize then [paragraph]
    else SliceUnits(cfg, paragraph, TokenSlices(tokens, cfg.chunkSize))
  }

  method HardSplitParagraph(cfg: Config, paragraph: ParagraphUnit) returns (splits: seq<ParagraphUnit>)
    requires cfg.chunkSize >= 1
    ensures splits == HardSplit(cfg, paragraph)
  {
    var tokens := cfg.tokenizer.encode(paragraph.text);
    if |tokens| <= cfg.chunkSize {
      return [paragraph];
    }
    splits := [];
    var start := 0;
    ghost var rest, done: seq<seq<int>> := tokens, [];
    while start < |tokens|
      invariant 0 <= start
      invariant rest == if start <= |tokens| then tokens[start..] else []
      invariant TokenSlices(tokens, cfg.chunkSize) == done + TokenSlices(rest, cfg.chunkSize)
      invariant splits == SliceUnits(cfg, paragraph, done)
      decreases |tokens| - start
    {
      var slice := tokens[start..Min(start + cfg.chunkSize, |tokens|)];
      SliceOfRest(tokens, start, cfg.chunkSize);
      SliceFront(rest, cfg.chunkSize);
      rest := rest[Min(cfg.chunkSize, |rest|)..];
      Regroup(done, slice, TokenSlices(rest, cfg.chunkSize));
      SliceUnitsSnoc(cfg, paragraph, done, slice);
      done := done + [slice];
      splits := splits + [paragraph.(text := cfg.tokenizer.decode(slice))];
      start := start + cfg.chunkSize;
    }
  }

  lemma SliceOfRest(tokens: seq<int>, start: nat, size: nat)
    requires start < |tokens|
    ensures
      var rest := tokens[start..];
      var n := Min(size, |rest|);
      && rest[..n] == tokens[start..Min(start + size, |tokens|)]
      && rest[n..] == if start + size <= |tokens| then tokens[start + size..] else []
  {
  }

  lemma SliceFront(tokens: seq<int>, size: nat)
    requires size >= 1 && tokens != []
    ensures
      var n := Min(size, |tokens|);
      TokenSlices(tokens, size) == [tokens[..n]] + TokenSlices(tokens[n..], size)
  {
    assert tokens[..|tokens|] == tokens && tokens[|tokens|..] == [];
  }

  lemma SliceUnitsSnoc(cfg: Config, paragraph: ParagraphUnit, slices: seq<seq<int>>, slice: seq<int>)
    ensures SliceUnits(cfg, paragraph, slices + [slice])
      == SliceUnits(cfg, paragraph, slices) + [paragraph.(text := cfg.tokenizer.decode(slice))]
  {
  }

  /** Every paragraph hard-split, in document order. */
  function Expand(cfg: Config, units: seq<ParagraphUnit>): seq<ParagraphUnit>
    requires cfg.chunkSize >= 1
  {
    if units == [] then [] else HardSplit(cfg, units[0]) + Expand(cfg, units[1..])
  }

  // ----- the text of a chunk

  /** Python's `"\n\n".join(parts)`. */
  function Join(parts: seq<string>): string {
    if parts == [] then "" else if |parts| == 1 then parts[0] else parts[0] + "\n\n" + Join(parts[1..])
  }

  function Texts(units: seq<ParagraphUnit>): seq<string> {
    if units == [] then [] else [units[0].text] + Texts(units[1..])
  }

  predicate HasHeading(unit: ParagraphUnit) {
    unit.sectionHeading.Some? && unit.sectionHeading.value != ""
  }

  function FirstHeading(units: seq<ParagraphUnit>): Option<string> {
    if units == [] then None else if HasHeading(units[0]) then units[0].sectionHeading else FirstHeading(units[1..])
  }

  function LastHeading(units: seq<ParagraphUnit>): Option<string> {
    if units == [] then None
    else if HasHeading(units[|units| - 1]) then units[|units| - 1].sectionHeading
    else LastHeading(units[..|units| - 1])
  }

  function FirstPage(units: seq<ParagraphUnit>): Option<int> {
    if units == [] then None else if units[0].page.Some? then units[0].page else FirstPage(units[1..])
  }

  /** The stamped heading, unless the text already opens with one. */
  function HeadingLine(cfg: Config, units: seq<ParagraphUnit>): seq<string> {
    var opensWithHeading := units != [] && cfg.heading(units[0].text).Some?;
    match FirstHeading(units)
    case Some(h) => if opensWithHeading then [] else ["# " + h]
    case None => []
  }

  function NonEmpty(text: string): seq<string> {
    if text == "" then [] else [text]
  }

  function FormatContent(cfg: Config, units: seq<ParagraphUnit>, overlap: string): string {
    Join(HeadingLine(cfg, units) + NonEmpty(overlap) + NonEmpty(Join(Texts(units))))
  }

  /** The text of the last `overlap` tokens. */
  function TakeOverlap(cfg: Config, text: string): string {
    if cfg.overlap <= 0 || text == "" then ""
    else
      var tokens := cfg.tokenizer.encode(text);
      if |tokens| <= cfg.overlap then text else cfg.tokenizer.decode(tokens[|tokens| - cfg.overlap..])
  }

  function MakeChunk(cfg: Config, index: nat, units: seq<ParagraphUnit>, overlap: string): ContentChunk {
    ContentChunk(FormatContent(cfg, units, overlap), index, Metadata(index, FirstPage(units), LastHeading(units)))
  }

  function OverlapAfter(cfg: Config, chunks: seq<ContentChunk>): string {
    if chunks == [] then "" else TakeOverlap(cfg, chunks[|chunks| - 1].content)
  }

  function ChunkMaker(cfg: Config): (seq<ContentChunk>, seq<ParagraphUnit>) -> ContentChunk {
    (before, units) => MakeChunk(cfg, |before|, units, OverlapAfter(cfg, before))
  }

  /** The chunks made of the given groups of units, each carrying the tail of the one before. */
  function Render(cfg: Config, groups: seq<seq<ParagraphUnit>>): (chunks: seq<ContentChunk>)
    ensures |chunks| == |groups|
  {
    Chain(ChunkMaker(cfg), groups)
  }

  // ----- packing

  /** Would a chunk of these units, after the given groups, stay within the chunk size? */
  predicate Fits(cfg: Config, before: seq<seq<ParagraphUnit>>, units: seq<ParagraphUnit>) {
    CountTokens(cfg, FormatContent(cfg, units, OverlapAfter(cfg, Render(cfg, before)))) <= cfg.chunkSize
  }

  function FitsIn(cfg: Config): Fit<ParagraphUnit> {
    (before, units) => Fits(cfg, before, units)
  }

  /** `emit_chunk`: closes the current group, or does nothing when there is none. */
  method EmitChunk(cfg: Config, chunks: seq<ContentChunk>, current: seq<ParagraphUnit>, overlapPrefix: string)
    returns (chunks': seq<ContentChunk>, current': seq<ParagraphUnit>, overlapPrefix': string)
    ensures current == [] ==> chunks' == chunks && overlapPrefix' == overlapPrefix
    ensures current != [] ==> chunks' == chunks + [MakeChunk(cfg, |chunks|, current, overlapPrefix)]
    ensures current != [] ==> overlapPrefix' == TakeOverlap(cfg, chunks'[|chunks|].content)
    ensures current' == []
  {
    chunks', current', overlapPrefix' := chunks, current, overlapPrefix;
    if current == [] {
      return;
    }
    var chunk := MakeChunk(cfg, |chunks|, current, overlapPrefix);
    chunks' := chunks + [chunk];
    overlapPrefix' := TakeOverlap(cfg, chunk.content);
    current' := [];
  }

  /** What the packing loop has built: the closed groups rendered, and the group in progress. */
  ghost predicate Packing(cfg: Config, groups: seq<seq<ParagraphUnit>>, chunks: seq<ContentChunk>,
      current: seq<ParagraphUnit>, overlapPrefix: string) {
    && chunks == Render(cfg, groups)
    && overlapPrefix == OverlapAfter(cfg, chunks)
    && Grown(FitsIn(cfg), groups, current)
    && (current == [] ==> groups == [])
  }

  lemma GrowGroup(cfg: Config, before: seq<seq<ParagraphUnit>>, current: seq<ParagraphUnit>, unit: ParagraphUnit)
    requires Grown(FitsIn(cfg), before, current) && (current == [] || Fits(cfg, before, current + [unit]))
    ensures Grown(FitsIn(cfg), before, current + [unit])
  {
    var longer := current + [unit];
    forall j | 2 <= j <= |longer|
      ensures Fits(cfg, before, longer[..j])
    {
      assert longer[..j] == if j == |longer| then longer else current[..j];
    }
  }

  /** One unit of the packing loop; the emit for an over-long single unit never has anything to emit. */
  method AddUnit(cfg: Config, chunks: seq<ContentChunk>, current: seq<ParagraphUnit>, overlapPrefix: string,
      unit: ParagraphUnit, ghost groups: seq<seq<ParagraphUnit>>)
    returns (chunks': seq<ContentChunk>, current': seq<ParagraphUnit>, overlapPrefix': string,
        ghost groups': seq<seq<ParagraphUnit>>)
    requires Packing(cfg, groups, chunks, current, overlapPrefix)
    ensures Packing(cfg, groups', chunks', current', overlapPrefix') && current' != []
    ensures if current == [] || Fits(cfg, groups, current + [unit])
      then groups' == groups && current' == current + [unit]
      else groups' == groups + [current] && current' == [unit]
  {
    chunks', current', overlapPrefix', groups' := chunks, current, overlapPrefix, groups;
    var candidateUnits := current + [unit];
    var candidateTokens := CountTokens(cfg, FormatContent(cfg, candidateUnits, overlapPrefix));
    if candidateTokens <= cfg.chunkSize {
      GrowGroup(cfg, groups, current, unit);
      current' := candidateUnits;
      return;
    }
    if current != [] {
      ChainSnoc(ChunkMaker(cfg), groups, current);
      chunks', current', overlapPrefix' := EmitChunk(cfg, chunks', current', overlapPrefix');
      groups' := groups + [current];
    }
    var singleTokenCount := CountTokens(cfg, FormatContent(cfg, [unit], overlapPrefix'));
    if singleTokenCount <= cfg.chunkSize {
      current' := [unit];
    } else {
      assert current' == [];
      chunks', current', overlapPrefix' := EmitChunk(cfg, chunks', current', overlapPrefix');
      current' := [unit];
    }
  }

  /** The packing loop's state, and that it is on its way to the grouping `total`. */
  ghost predicate OnTheWay(cfg: Config, total: seq<seq<ParagraphUnit>>, groups: seq<seq<ParagraphUnit>>,
      chunks: seq<ContentChunk>, current: seq<ParagraphUnit>, overlapPrefix: string, pending: seq<ParagraphUnit>) {
    && Packing(cfg, groups, chunks, current, overlapPrefix)
    && total == groups + Pack(FitsIn(cfg), groups, current + pending)
  }

  /** The inner loop: the slices of one paragraph, one after the other. */
  method AddUnits(cfg: Config, chunks: seq<ContentChunk>, current: seq<ParagraphUnit>, overlapPrefix: string,
      expandedUnits: seq<ParagraphUnit>,
      ghost groups: seq<seq<ParagraphUnit>>, ghost after: seq<ParagraphUnit>, ghost total: seq<seq<ParagraphUnit>>)
    returns (chunks': seq<ContentChunk>, current': seq<ParagraphUnit>, overlapPrefix': string,
        ghost groups': seq<seq<ParagraphUnit>>)
    requires OnTheWay(cfg, total, groups, chunks, current, overlapPrefix, expandedUnits + after)
    ensures OnTheWay(cfg, total, groups', chunks', current', overlapPrefix', after)
  {
    chunks', current', overlapPrefix', groups' := chunks, current, overlapPrefix, groups;
    ghost var pending := expandedUnits + after;
    assert expandedUnits[0..] == expandedUnits;
    for j := 0 to |expandedUnits|
      invariant pending == expandedUnits[j..] + after
      invariant OnTheWay(cfg, total, groups', chunks', current', overlapPrefix', pending)
    {
      NextPending(expandedUnits, j, after);
      PackStep(cfg, groups', current', expandedUnits[j], expandedUnits[j + 1..] + after);
      chunks', current', overlapPrefix', groups' :=
        AddUnit(cfg, chunks', current', overlapPrefix', expandedUnits[j], groups');
      pending := expandedUnits[j + 1..] + after;
    }
    assert pending == after;
  }

  /** Splits extracted segments into overlapping token-bounded chunks. */
  method ChunkExtractionResult(cfg: Config, segments: seq<Segment>) returns (r: Result<seq<ContentChunk>, ConfigError>)
    requires cfg.chunkSize >= 1
    ensures r == Chunked(cfg, segments)
  {
    if cfg.overlap >= cfg.chunkSize {
      return Err(OverlapNotSmaller);
    }
    var units := ParagraphUnits(cfg, segments);
    if units == [] {
      return Ok([]);
    }
    var chunks: seq<ContentChunk>, current: seq<ParagraphUnit>, overlapPrefix := [], [], "";
    ghost var groups: seq<seq<ParagraphUnit>>, pending := [], Expand(cfg, units);
    ghost var total := Pack(FitsIn(cfg), [], pending);
    assert [] + pending == pending && units[0..] == units && [] + total == total;
    for i := 0 to |units|
      invariant pending == Expand(cfg, units[i..])
      invariant OnTheWay(cfg, total, groups, chunks, current, overlapPrefix, pending)
    {
      var expandedUnits := HardSplitParagraph(cfg, units[i]);
      assert units[i..][1..] == units[i + 1..];
      pending := Expand(cfg, units[i + 1..]);
      chunks, current, overlapPrefix, groups :=
        AddUnits(cfg, chunks, current, overlapPrefix, expandedUnits, groups, pending, total);
    }
    assert current + pending == current;
    if current != [] {
      PackLast(FitsIn(cfg), groups, current);
      ChainSnoc(ChunkMaker(cfg), groups, current);
      chunks, current, overlapPrefix := EmitChunk(cfg, chunks, current, overlapPrefix);
    }
    return Ok(chunks);
  }

  /** Adding one unit leaves the final grouping as it is. */
  lemma PackStep(cfg: Config, groups: seq<seq<ParagraphUnit>>, current: seq<ParagraphUnit>, unit: ParagraphUnit,
      later: seq<ParagraphUnit>)
    requires Grown(FitsIn(cfg), groups, current)
    ensures groups + Pack(FitsIn(cfg), groups, current + ([unit] + later))
      == if current == [] || Fits(cfg, groups, current + [unit])
         then groups + Pack(FitsIn(cfg), groups, current + [unit] + later)
         else groups + [current] + Pack(FitsIn(cfg), groups + [current], [unit] + later)
  {
    if current == [] || Fits(cfg, groups, current + [unit]) {
      assert current + ([unit] + later) == current + [unit] + later;
    } else {
      PackFlush(FitsIn(cfg), groups, current, unit, later);
    }
  }

  ghost function Chunked(cfg: Config, segments: seq<Segment>): Result<seq<ContentChunk>, ConfigError>
    requires cfg.chunkSize >= 1
  {
    if cfg.overlap >= cfg.chunkSize then Err(OverlapNotSmaller)
    else Ok(Render(cfg, Pack(FitsIn(cfg), [], Expand(cfg, UnitsOf(cfg, Paragraphs(cfg, segments))))))
  }

  // ----- what packing promises

  /**
   The chunks of a document, one per group of units: indices are positions, each content is the
   group formatted with the overlap of the chunk before, a content passes the size only when
   its group is a single unit, and the next unit would have made any chunk too long.
   */
  lemma RenderedChunks(cfg: Config, units: seq<ParagraphUnit>, k: nat)
    requires k < |Pack(FitsIn(cfg), [], units)|
    ensures
      var groups := Pack(FitsIn(cfg), [], units);
      var chunks := Render(cfg, groups);
      var overlap := if k == 0 then "" else TakeOverlap(cfg, chunks[k - 1].content);
      && chunks[k] == MakeChunk(cfg, k, groups[k], overlap)
      && groups[k] != []
      && (CountTokens(cfg, chunks[k].content) <= cfg.chunkSize || |groups[k]| == 1)
      && (k + 1 < |groups| ==>
        && groups[k + 1] != []
        && CountTokens(cfg, FormatContent(cfg, groups[k] + [groups[k + 1][0]], overlap)) > cfg.chunkSize)
  {
    var groups := Pack(FitsIn(cfg), [], units);
    PackIsGreedy(FitsIn(cfg), [], units);
    RenderAt(cfg, groups, k);
    SizeAndMaximality(cfg, groups, k);
  }

  lemma SizeAndMaximality(cfg: Config, groups: seq<seq<ParagraphUnit>>, k: nat)
    requires k < |groups| && GreedyGroups(FitsIn(cfg), [], groups)
    ensures groups[k] != [] && (Fits(cfg, groups[..k], groups[k]) || |groups[k]| == 1)
    ensures k + 1 < |groups| ==> groups[k + 1] != [] && !Fits(cfg, groups[..k], groups[k] + [groups[k + 1][0]])
  {
    assert [] + groups[..k] == groups[..k];
    assert groups[k][..|groups[k]|] == groups[k];
  }

  lemma RenderAt(cfg: Config, groups: seq<seq<ParagraphUnit>>, k: nat)
    requires k < |groups|
    ensures
      var chunks := Render(cfg, groups);
      var overlap := if k == 0 then "" else TakeOverlap(cfg, chunks[k - 1].content);
      chunks[k] == MakeChunk(cfg, k, groups[k], overlap) && OverlapAfter(cfg, Render(cfg, groups[..k])) == overlap
  {
    ChainAt(ChunkMaker(cfg), groups, k);
    var chunks, before := Render(cfg, groups), Render(cfg, groups[..k]);
    assert before == chunks[..k] && |before| == k;
    if k > 0 {
      assert before[k - 1] == chunks[k - 1];
    }
  }

  /** The overlap stands right behind the optional heading line. */
  lemma CarriesOverlap(cfg: Config, units: seq<ParagraphUnit>, overlap: string)
    requires overlap != ""
    ensures HeadingLine(cfg, units) == [] ==> overlap <= FormatContent(cfg, units, overlap)
    ensures HeadingLine(cfg, units) != [] ==>
      HeadingLine(cfg, units)[0] + "\n\n" + overlap <= FormatContent(cfg, units, overlap)
  {
    var heading, body := HeadingLine(cfg, units), NonEmpty(Join(Texts(units)));
    assert ([overlap] + body)[1..] == body;
    assert overlap <= Join([overlap] + body);
    if heading == [] {
      assert heading + [overlap] + body == [overlap] + body;
    } else {
      assert (heading + [overlap] + body)[1..] == [overlap] + body;
    }
  }

  // ----- laws of a tokenizer, and what follows from them

  /** Decoding is the inverse of encoding. */
  ghost predicate RoundTrips(t: Tokenizer) {
    forall text :: t.decode(t.encode(text)) == text
  }

  /**
   Decoding in two pieces gives the same text, or a longer one: a character torn apart by the
   cut comes out as a replacement character on either side.
   */
  ghost predicate TearingGrows(t: Tokenizer) {
    forall a, b :: t.decode(a + b) == t.decode(a) + t.decode(b) || |t.decode(a)| + |t.decode(b)| > |t.decode(a + b)|
  }

  /** No cut behind every `size` tokens tears a character apart. */
  ghost predicate CleanCuts(t: Tokenizer, tokens: seq<int>, size: nat)
    requires size >= 1
    decreases |tokens|
  {
    || |tokens| <= size
    || (t.decode(tokens) == t.decode(tokens[..size]) + t.decode(tokens[size..]) && CleanCuts(t, tokens[size..], size))
  }

  /** Encoding a concatenation takes no more tokens than encoding the parts. */
  ghost predicate Subadditive(t: Tokenizer) {
    forall x, y :: |t.encode(x + y)| <= |t.encode(x)| + |t.encode(y)|
  }

  /** A decoded slice of an encoding encodes to no more tokens than the slice has. */
  ghost predicate SlicesShrink(t: Tokenizer) {
    forall text, i, j :: 0 <= i <= j <= |t.encode(text)| ==> |t.encode(t.decode(t.encode(text)[i..j]))| <= j - i
  }

  lemma {:induction false} GroupIsSlice<T>(groups: seq<seq<T>>, k: nat) returns (i: nat)
    requires k < |groups|
    ensures i + |groups[k]| <= |Flatten(groups)| && Flatten(groups)[i..i + |groups[k]|] == groups[k]
  {
    if k == 0 {
      i := 0;
    } else {
      i := GroupIsSlice(groups[1..], k - 1);
      i := i + |groups[0]|;
    }
  }

  lemma UnitsAreShort(cfg: Config, paragraph: ParagraphUnit, k: nat)
    requires cfg.chunkSize >= 1 && SlicesShrink(cfg.tokenizer) && k < |HardSplit(cfg, paragraph)|
    ensures CountTokens(cfg, HardSplit(cfg, paragraph)[k].text) <= cfg.chunkSize
  {
    var tokens := cfg.tokenizer.encode(paragraph.text);
    if |tokens| > cfg.chunkSize {
      var slices := TokenSlices(tokens, cfg.chunkSize);
      SlicesPartition(tokens, cfg.chunkSize);
      var i := GroupIsSlice(slices, k);
      assert HardSplit(cfg, paragraph)[k].text == cfg.tokenizer.decode(tokens[i..i + |slices[k]|]);
    }
  }

  lemma {:induction false} ExpandedUnitsAreShort(cfg: Config, units: seq<ParagraphUnit>, k: nat)
    requires cfg.chunkSize >= 1 && SlicesShrink(cfg.tokenizer) && k < |Expand(cfg, units)|
    ensures CountTokens(cfg, Expand(cfg, units)[k].text) <= cfg.chunkSize
    decreases |units|
  {
    var first := HardSplit(cfg, units[0]);
    if k < |first| {
      UnitsAreShort(cfg, units[0], k);
    } else {
      ExpandedUnitsAreShort(cfg, units[1..], k - |first|);
    }
  }

  lemma OverlapIsShort(cfg: Config, text: string)
    requires cfg.overlap >= 0 && SlicesShrink(cfg.tokenizer)
    ensures TakeOverlap(cfg, text) != "" ==> CountTokens(cfg, TakeOverlap(cfg, text)) <= cfg.overlap
  {
    var tokens := cfg.tokenizer.encode(text);
    if 0 < cfg.overlap < |tokens| {
      assert tokens[|tokens| - cfg.overlap..] == tokens[|tokens| - cfg.overlap..|tokens|];
    }
  }

  /** The tokens a stamped heading line and its separator may add. */
  ghost function HeadingCost(cfg: Config, units: seq<ParagraphUnit>): nat {
    if HeadingLine(cfg, units) == [] then 0 else CountTokens(cfg, HeadingLine(cfg, units)[0]) + CountTokens(cfg, "\n\n")
  }

  /** Joining costs no more than the parts and the separators. */
  lemma JoinedTokens(cfg: Config, head: string, parts: seq<string>)
    requires Subadditive(cfg.tokenizer)
    ensures parts == [] ==> Join([head] + parts) == head
    ensures parts != [] ==>
      CountTokens(cfg, Join([head] + parts))
      <= CountTokens(cfg, head) + CountTokens(cfg, "\n\n") + CountTokens(cfg, Join(parts))
  {
    assert ([head] + parts)[1..] == parts;
    if parts != [] {
      assert Join([head] + parts) == (head + "\n\n") + Join(parts);
      assert CountTokens(cfg, head + "\n\n") <= CountTokens(cfg, head) + CountTokens(cfg, "\n\n");
    }
  }

  ghost function OverlapCost(cfg: Config, overlap: string): nat {
    if overlap == "" then 0 else CountTokens(cfg, overlap)
  }

  /** The overlap and the body of a single unit. */
  lemma TailTokens(cfg: Config, overlap: string, text: string)
    requires Subadditive(cfg.tokenizer)
    ensures CountTokens(cfg, Join(NonEmpty(overlap) + NonEmpty(text)))
      <= CountTokens(cfg, text) + OverlapCost(cfg, overlap) + CountTokens(cfg, "\n\n")
  {
    assert Join([text]) == text && Join([]) == "";
    if overlap == "" {
      assert NonEmpty(overlap) + NonEmpty(text) == NonEmpty(text);
    } else {
      JoinedTokens(cfg, overlap, NonEmpty(text));
    }
  }

  /** A chunk of one unit costs no more than the unit, its overlap, its heading line and the separators. */
  lemma SingleUnitCost(cfg: Config, unit: ParagraphUnit, overlap: string)
    requires Subadditive(cfg.tokenizer)
    ensures CountTokens(cfg, FormatContent(cfg, [unit], overlap))
      <= CountTokens(cfg, unit.text) + OverlapCost(cfg, overlap) + HeadingCost(cfg, [unit]) + CountTokens(cfg, "\n\n")
  {
    var heading := HeadingLine(cfg, [unit]);
    TailTokens(cfg, overlap, unit.text);
    SingleUnitContent(cfg, unit, overlap);
    if heading != [] {
      JoinedTokens(cfg, heading[0], NonEmpty(overlap) + NonEmpty(unit.text));
    }
  }

  lemma SingleUnitContent(cfg: Config, unit: ParagraphUnit, overlap: string)
    ensures FormatContent(cfg, [unit], overlap)
      == Join(HeadingLine(cfg, [unit]) + (NonEmpty(overlap) + NonEmpty(unit.text)))
    ensures HeadingLine(cfg, [unit]) == [] ==>
      FormatContent(cfg, [unit], overlap) == Join(NonEmpty(overlap) + NonEmpty(unit.text))
  {
    var heading := HeadingLine(cfg, [unit]);
    var parts := [unit.text];
    assert Texts([unit]) == parts && |parts| == 1;
    assert Join(parts) == parts[0];
    assert heading + NonEmpty(overlap) + NonEmpty(unit.text) == heading + (NonEmpty(overlap) + NonEmpty(unit.text));
  }

  /** What any chunk costs at most: the size, or the cost of its only unit. */
  lemma EveryChunkCost(cfg: Config, units: seq<ParagraphUnit>, k: nat)
    requires Subadditive(cfg.tokenizer) && k < |Pack(FitsIn(cfg), [], units)|
    ensures
      var groups := Pack(FitsIn(cfg), [], units);
      var chunks := Render(cfg, groups);
      var overlap := if k == 0 then "" else TakeOverlap(cfg, chunks[k - 1].content);
      || CountTokens(cfg, chunks[k].content) <= cfg.chunkSize
      || (|groups[k]| == 1 && CountTokens(cfg, chunks[k].content)
          <= CountTokens(cfg, groups[k][0].text) + OverlapCost(cfg, overlap)
             + HeadingCost(cfg, groups[k]) + CountTokens(cfg, "\n\n"))
  {
    var groups := Pack(FitsIn(cfg), [], units);
    var chunks := Render(cfg, groups);
    RenderedChunks(cfg, units, k);
    if |groups[k]| == 1 {
      assert groups[k] == [groups[k][0]];
      SingleUnitCost(cfg, groups[k][0], if k == 0 then "" else TakeOverlap(cfg, chunks[k - 1].content));
    }
  }

  lemma SingleGroupIsShort(cfg: Config, paragraphs: seq<ParagraphUnit>, groups: seq<seq<ParagraphUnit>>, k: nat)
    requires cfg.chunkSize >= 1 && SlicesShrink(cfg.tokenizer)
    requires Flatten(groups) == Expand(cfg, paragraphs) && k < |groups| && |groups[k]| == 1
    ensures CountTokens(cfg, groups[k][0].text) <= cfg.chunkSize
  {
    var i := GroupIsSlice(groups, k);
    assert Flatten(groups)[i..i + 1][0] == groups[k][0];
    ExpandedUnitsAreShort(cfg, paragraphs, i);
  }

  /** The hard bound on every chunk of a document, for a tokenizer whose decoded slices do not grow. */
  lemma EveryChunkBound(cfg: Config, paragraphs: seq<ParagraphUnit>, k: nat)
    requires cfg.chunkSize >= 1 && cfg.overlap >= 0 && Subadditive(cfg.tokenizer) && SlicesShrink(cfg.tokenizer)
    requires k < |Pack(FitsIn(cfg), [], Expand(cfg, paragraphs))|
    ensures var groups := Pack(FitsIn(cfg), [], Expand(cfg, paragraphs));
      CountTokens(cfg, Render(cfg, groups)[k].content)
      <= cfg.chunkSize + cfg.overlap + HeadingCost(cfg, groups[k]) + CountTokens(cfg, "\n\n")
  {
    var units := Expand(cfg, paragraphs);
    var groups := Pack(FitsIn(cfg), [], units);
    EveryChunkCost(cfg, units, k);
    PackFlattens(FitsIn(cfg), [], units);
    if k > 0 {
      OverlapIsShort(cfg, Render(cfg, groups)[k - 1].content);
    }
    if |groups[k]| == 1 {
      SingleGroupIsShort(cfg, paragraphs, groups, k);
    }
  }

  /** All paragraphs are cut cleanly. */
  ghost predicate AllClean(cfg: Config, units: seq<ParagraphUnit>)
    requires cfg.chunkSize >= 1
  {
    forall i :: 0 <= i < |units| ==> CleanCuts(cfg.tokenizer, cfg.tokenizer.encode(units[i].text), cfg.chunkSize)
  }

  /**
   The groups behind the chunks are the hard-split units, in order; and these spell out the
   paragraphs exactly when no cut tears a character apart.
   */
  lemma NothingIsLost(cfg: Config, units: seq<ParagraphUnit>)
    requires cfg.chunkSize >= 1
    ensures var groups := Pack(FitsIn(cfg), [], Expand(cfg, units));
      && Flatten(groups) == Expand(cfg, units)
      && (RoundTrips(cfg.tokenizer) && AllClean(cfg, units) ==>
          Flatten(Texts(Flatten(groups))) == Flatten(Texts(units)))
      && (RoundTrips(cfg.tokenizer) && TearingGrows(cfg.tokenizer) ==>
          (Flatten(Texts(Flatten(groups))) == Flatten(Texts(units)) <==> AllClean(cfg, units)))
  {
    PackFlattens(FitsIn(cfg), [], Expand(cfg, units));
    if RoundTrips(cfg.tokenizer) {
      ExpandedText(cfg, units);
    }
  }

  /** The text of the units is that of the paragraphs if all cuts are clean, and longer otherwise. */
  lemma {:induction false} ExpandedText(cfg: Config, units: seq<ParagraphUnit>)
    requires cfg.chunkSize >= 1 && RoundTrips(cfg.tokenizer)
    ensures
      var expanded, text := Flatten(Texts(Expand(cfg, units))), Flatten(Texts(units));
      && (AllClean(cfg, units) ==> expanded == text)
      && (TearingGrows(cfg.tokenizer) ==> |expanded| >= |text| && (|expanded| == |text| ==> AllClean(cfg, units)))
  {
    if units != [] {
      var first, rest := units[0], units[1..];
      ExpandedText(cfg, rest);
      HardSplitKeepsText(cfg, first);
      TextsAppend(HardSplit(cfg, first), Expand(cfg, rest));
      FlattenAppend(Texts(HardSplit(cfg, first)), Texts(Expand(cfg, rest)));
      assert Flatten(Texts(units)) == first.text + Flatten(Texts(rest));
      CleanHead(cfg, units);
    }
  }

  lemma CleanHead(cfg: Config, units: seq<ParagraphUnit>)
    requires cfg.chunkSize >= 1 && units != []
    ensures AllClean(cfg, units) <==>
      CleanCuts(cfg.tokenizer, cfg.tokenizer.encode(units[0].text), cfg.chunkSize) && AllClean(cfg, units[1..])
  {
    assert forall i :: 1 <= i < |units| ==> units[i] == units[1..][i - 1];
  }

  lemma {:induction false} TextsAppend(a: seq<ParagraphUnit>, b: seq<ParagraphUnit>)
    ensures Texts(a + b) == Texts(a) + Texts(b)
  {
    if a == [] {
      assert a + b == b;
    } else {
      TextsAppend(a[1..], b);
      assert (a + b)[1..] == a[1..] + b;
      Reassociate([a[0].text], Texts(a[1..]), Texts(b));
    }
  }

  /** A paragraph's slices spell it out if its cuts are clean; otherwise they are longer than it. */
  lemma HardSplitKeepsText(cfg: Config, paragraph: ParagraphUnit)
    requires cfg.chunkSize >= 1 && RoundTrips(cfg.tokenizer)
    ensures
      var tokens := cfg.tokenizer.encode(paragraph.text);
      var text := Flatten(Texts(HardSplit(cfg, paragraph)));
      && (CleanCuts(cfg.tokenizer, tokens, cfg.chunkSize) ==> text == paragraph.text)
      && (TearingGrows(cfg.tokenizer) ==>
          && |text| >= |paragraph.text|
          && (|text| == |paragraph.text| ==> CleanCuts(cfg.tokenizer, tokens, cfg.chunkSize)))
  {
    var tokens := cfg.tokenizer.encode(paragraph.text);
    if |tokens| <= cfg.chunkSize {
      OneText(paragraph);
    } else {
      SliceTexts(cfg, paragraph, tokens);
      SlicedTextLength(cfg.tokenizer, tokens, cfg.chunkSize);
    }
  }

  lemma OneText(unit: ParagraphUnit)
    ensures Flatten(Texts([unit])) == unit.text
  {
    assert Texts([unit]) == [unit.text];
    assert Flatten([unit.text]) == unit.text + Flatten([unit.text][1..]);
  }

  /** The slices of a token sequence, decoded one by one. */
  ghost function SlicedText(t: Tokenizer, tokens: seq<int>, size: nat): string
    requires size >= 1
    decreases |tokens|
  {
    if |tokens| <= size then t.decode(tokens) else t.decode(tokens[..size]) + SlicedText(t, tokens[size..], size)
  }

  lemma {:induction false} SliceTexts(cfg: Config, paragraph: ParagraphUnit, tokens: seq<int>)
    requires cfg.chunkSize >= 1 && tokens != []
    ensures Flatten(Texts(SliceUnits(cfg, paragraph, TokenSlices(tokens, cfg.chunkSize))))
      == SlicedText(cfg.tokenizer, tokens, cfg.chunkSize)
    decreases |tokens|
  {
    var size := cfg.chunkSize;
    if |tokens| <= size {
      OneText(paragraph.(text := cfg.tokenizer.decode(tokens)));
      assert SliceUnits(cfg, paragraph, [tokens]) == [paragraph.(text := cfg.tokenizer.decode(tokens))];
    } else {
      SliceTexts(cfg, paragraph, tokens[size..]);
      SliceTextsFront(cfg, paragraph, tokens[..size], TokenSlices(tokens[size..], size));
    }
  }

  lemma SliceTextsFront(cfg: Config, paragraph: ParagraphUnit, slice: seq<int>, later: seq<seq<int>>)
    ensures Flatten(Texts(SliceUnits(cfg, paragraph, [slice] + later)))
      == cfg.tokenizer.decode(slice) + Flatten(Texts(SliceUnits(cfg, paragraph, later)))
  {
    var units := SliceUnits(cfg, paragraph, [slice] + later);
    assert units[1..] == SliceUnits(cfg, paragraph, later);
    assert Texts(units)[1..] == Texts(units[1..]);
  }

  lemma {:induction false} SlicedTextLength(t: Tokenizer, tokens: seq<int>, size: nat)
    requires size >= 1
    ensures CleanCuts(t, tokens, size) ==> SlicedText(t, tokens, size) == t.decode(tokens)
    ensures TearingGrows(t) ==>
      |SlicedText(t, tokens, size)| >= |t.decode(tokens)|
      && (|SlicedText(t, tokens, size)| == |t.decode(tokens)| ==> CleanCuts(t, tokens, size))
    decreases |tokens|
  {
    if |tokens| > size {
      SlicedTextLength(t, tokens[size..], size);
      assert tokens == tokens[..size] + tokens[size..];
    }
  }
}
