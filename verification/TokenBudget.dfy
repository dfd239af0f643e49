/**
 Token-budgeted loading and batching of document chunks for agent tools.

 Three functions of the program cooperate here: chunk selection under a budget, greedy
 batching, and the cap on the number of summarised batches.
 */
module TokenBudget {
  import opened Arithmetic
  import opened Sequences
  import opened Wrappers
  import opened GreedyPacking

  const MAX_TOOL_INPUT_TOKENS: nat := 6000
  const MAX_SUMMARY_BATCHES: nat := 3

  /** A chunk as the agent tools see it; only the text decides its cost. */
  datatype LoadedChunk = LoadedChunk(chunkId: nat, content: string)

  /** Approximate token count: a quarter of the length, rounded up. */
  function CountTokens(text: string): (r: nat)
    ensures 4 * r - 4 < |text| <= 4 * r || (r == 0 && |text| == 0)
  {
    if |text| == 0 then 0
    else Max(1, (|text| + 3) / 4)
  }

  ghost function Total(chunks: seq<LoadedChunk>): nat {
    if chunks == [] then 0 else CountTokens(chunks[0].content) + Total(chunks[1..])
  }

  /** What one batch may be: within the budget, or a single chunk of any size. */
  ghost predicate FitsBudget(batch: seq<LoadedChunk>, budget: int) {
    batch != [] && (Total(batch) <= budget || |batch| == 1)
  }

  /** A contiguous split of `chunks` into legal batches. */
  ghost predicate LegalSplit(batches: seq<seq<LoadedChunk>>, chunks: seq<LoadedChunk>, budget: int) {
    Flatten(batches) == chunks && forall i :: 0 <= i < |batches| ==> FitsBudget(batches[i], budget)
  }

  // ----- sums and concatenations

  lemma {:induction false} TotalAppend(xs: seq<LoadedChunk>, ys: seq<LoadedChunk>)
    ensures Total(xs + ys) == Total(xs) + Total(ys)
  {
    if xs == [] {
      assert xs + ys == ys;
    } else {
      TotalAppend(xs[1..], ys);
      assert (xs + ys)[1..] == xs[1..] + ys;
    }
  }

  // ----- the greedy split

  ghost function WithinBudget(budget: int): Fit<LoadedChunk> {
    (before, batch) => Total(batch) <= budget
  }

  /** How many chunks the greedy loop puts into its first batch. */
  ghost function FirstBatch(chunks: seq<LoadedChunk>, budget: int): (n: nat)
    requires chunks != []
    ensures 1 <= n <= |chunks|
    ensures FitsBudget(chunks[..n], budget)
    ensures n < |chunks| ==> Total(chunks[..n + 1]) > budget
  {
    GroupLength(WithinBudget(budget), [], chunks, 1)
  }

  /** The greedy split: every batch takes as many chunks as fit. */
  ghost function Greedy(chunks: seq<LoadedChunk>, budget: int): seq<seq<LoadedChunk>> {
    Pack(WithinBudget(budget), [], chunks)
  }

  lemma PrefixTotal(chunks: seq<LoadedChunk>, m: nat, n: nat)
    requires m <= n <= |chunks|
    ensures Total(chunks[..m]) <= Total(chunks[..n])
  {
    assert chunks[..n] == chunks[..m] + chunks[m..n];
    TotalAppend(chunks[..m], chunks[m..n]);
  }

  /** What went into earlier batches does not matter for later ones. */
  lemma {:induction false} EarlierBatchesDoNotMatter(before: seq<seq<LoadedChunk>>, chunks: seq<LoadedChunk>,
      budget: int)
    ensures Pack(WithinBudget(budget), before, chunks) == Greedy(chunks, budget)
    decreases |chunks|
  {
    if chunks != [] {
      var n := FirstBatch(chunks, budget);
      GroupLengthIs(WithinBudget(budget), before, chunks, n);
      EarlierBatchesDoNotMatter(before + [chunks[..n]], chunks[n..], budget);
      EarlierBatchesDoNotMatter([chunks[..n]], chunks[n..], budget);
      assert [] + [chunks[..n]] == [chunks[..n]];
    }
  }

  lemma GreedyUnfold(chunks: seq<LoadedChunk>, budget: int)
    requires chunks != []
    ensures var n := FirstBatch(chunks, budget);
      Greedy(chunks, budget) == [chunks[..n]] + Greedy(chunks[n..], budget)
  {
    var n := FirstBatch(chunks, budget);
    EarlierBatchesDoNotMatter([] + [chunks[..n]], chunks[n..], budget);
  }

  lemma {:induction false} GreedyIsLegal(chunks: seq<LoadedChunk>, budget: int)
    ensures LegalSplit(Greedy(chunks, budget), chunks, budget)
    decreases |chunks|
  {
    PackFlattens(WithinBudget(budget), [], chunks);
    if chunks != [] {
      GreedyUnfold(chunks, budget);
      GreedyIsLegal(chunks[FirstBatch(chunks, budget)..], budget);
    }
  }

  /**
   Stays-ahead: whatever legal split of the whole input is taken, greedy batching of any
   suffix of that input needs no more batches.
   */
  lemma {:induction false} GreedyStaysAhead(chunks: seq<LoadedChunk>, skip: nat, split: seq<seq<LoadedChunk>>,
      budget: int)
    requires skip <= |chunks| && LegalSplit(split, chunks, budget)
    ensures |Greedy(chunks[skip..], budget)| <= |split|
    decreases |split|
  {
    if skip < |chunks| {
      var m, tail := |split[0]|, Flatten(split[1..]);
      assert chunks == split[0] + tail;
      if m <= skip {
        GreedyStaysAhead(tail, skip - m, split[1..], budget);
        assert chunks[skip..] == chunks[m..][skip - m..] && chunks[m..] == tail;
      } else {
        var n := FirstBatch(chunks[skip..], budget);
        GreedyUnfold(chunks[skip..], budget);
        FirstBatchCoversHead(chunks, skip, split[0], budget);
        GreedyStaysAhead(tail, skip + n - m, split[1..], budget);
        assert chunks[skip..][n..] == chunks[m..][skip + n - m..] && chunks[m..] == tail;
      }
    }
  }

  /** The first greedy batch of a suffix reaches at least as far as any legal batch that overlaps its start. */
  lemma FirstBatchCoversHead(chunks: seq<LoadedChunk>, skip: nat, head: seq<LoadedChunk>, budget: int)
    requires head <= chunks && skip < |head| && FitsBudget(head, budget)
    ensures |head| - skip <= FirstBatch(chunks[skip..], budget)
  {
    var suffix := chunks[skip..];
    var n := FirstBatch(suffix, budget);
    if n < |head| - skip {
      HeadStillFits(head, chunks, skip, budget);
      PrefixTotal(suffix, n + 1, |head| - skip);
    }
  }

  lemma HeadStillFits(head: seq<LoadedChunk>, chunks: seq<LoadedChunk>, skip: nat, budget: int)
    requires head <= chunks && skip < |head| && FitsBudget(head, budget)
    ensures FitsBudget(chunks[skip..][..|head| - skip], budget)
  {
    assert chunks[skip..][..|head| - skip] == head[skip..];
    assert head == head[..skip] + head[skip..];
    TotalAppend(head[..skip], head[skip..]);
  }

  /** No contiguous split that obeys the batch rule uses fewer batches than greedy. */
  lemma GreedyIsOptimal(chunks: seq<LoadedChunk>, split: seq<seq<LoadedChunk>>, budget: int)
    requires LegalSplit(split, chunks, budget)
    ensures |Greedy(chunks, budget)| <= |split|
  {
    assert chunks[0..] == chunks;
    GreedyStaysAhead(chunks, 0, split, budget);
  }

  lemma LegalBatchGrew(batch: seq<LoadedChunk>, budget: int)
    requires FitsBudget(batch, budget)
    ensures Grown(WithinBudget(budget), [], batch)
  {
    forall j | 2 <= j <= |batch|
      ensures Total(batch[..j]) <= budget
    {
      PrefixTotal(batch, j, |batch|);
      assert batch[..|batch|] == batch;
    }
  }

  /** When the next chunk overflows a full batch, greedy batching starts afresh with that chunk. */
  lemma GreedyFlush(current: seq<LoadedChunk>, next: LoadedChunk, rest: seq<LoadedChunk>, budget: int)
    requires FitsBudget(current, budget) && Total(current) + CountTokens(next.content) > budget
    ensures Greedy(current + ([next] + rest), budget) == [current] + Greedy([next] + rest, budget)
  {
    LegalBatchGrew(current, budget);
    TotalSnoc(current, next);
    PackFlush(WithinBudget(budget), [], current, next, rest);
    EarlierBatchesDoNotMatter([] + [current], [next] + rest, budget);
  }

  lemma TotalSnoc(batch: seq<LoadedChunk>, next: LoadedChunk)
    ensures Total(batch + [next]) == Total(batch) + CountTokens(next.content)
  {
    TotalAppend(batch, [next]);
    assert Total([next]) == CountTokens(next.content);
  }

  /** One iteration of the batching loop leaves the greedy split of the whole input unchanged. */
  lemma BatchStep(batches: seq<seq<LoadedChunk>>, current: seq<LoadedChunk>, next: LoadedChunk, rest: seq<LoadedChunk>,
      budget: int)
    requires current != [] ==> FitsBudget(current, budget)
    ensures batches + Greedy(current + ([next] + rest), budget)
      == if current != [] && Total(current) + CountTokens(next.content) > budget
         then (batches + [current]) + Greedy([next] + rest, budget)
         else batches + Greedy(current + [next] + rest, budget)
  {
    if current != [] && Total(current) + CountTokens(next.content) > budget {
      GreedyFlush(current, next, rest, budget);
      Regroup(batches, current, Greedy([next] + rest, budget));
    } else {
      Regroup(current, next, rest);
    }
  }

  /** Splits chunks into sequential batches that fit the token budget. */
  method BatchChunksByTokenBudget(chunks: seq<LoadedChunk>, maxInputTokens: int)
    returns (batches: seq<seq<LoadedChunk>>)
    ensures batches == Greedy(chunks, maxInputTokens)
  {
    batches := [];
    if chunks == [] {
      return;
    }
    var current: seq<LoadedChunk> := [];
    var currentTokens := 0;
    ghost var rest := chunks;
    assert current + rest == chunks;
    for i := 0 to |chunks|
      invariant rest == chunks[i..]
      invariant currentTokens == Total(current)
      invariant current == [] <==> i == 0
      invariant current != [] ==> FitsBudget(current, maxInputTokens)
      invariant Greedy(chunks, maxInputTokens) == batches + Greedy(current + rest, maxInputTokens)
    {
      var chunkTokens := CountTokens(chunks[i].content);
      SuffixHead(chunks, i);
      rest := chunks[i + 1..];
      BatchStep(batches, current, chunks[i], rest, maxInputTokens);
      if current != [] && currentTokens + chunkTokens > maxInputTokens {
        batches := batches + [current];
        current := [];
        currentTokens := 0;
        assert [] + [chunks[i]] == [chunks[i]];
      }
      TotalSnoc(current, chunks[i]);
      current := current + [chunks[i]];
      currentTokens := currentTokens + chunkTokens;
    }
    assert current + rest == current;
    if current != [] {
      LegalBatchGrew(current, maxInputTokens);
      PackLast(WithinBudget(maxInputTokens), [], current);
      batches := batches + [current];
    }
  }

  // ----- selection under a budget

  /**
   `n` chunks are what selection takes: the shortest non-empty prefix that either reaches the
   budget or cannot be extended without passing it, or everything.
   */
  ghost predicate Selects(raw: seq<LoadedChunk>, n: nat, budget: int) {
    && n <= |raw|
    && (raw != [] ==> n >= 1 && FitsBudget(raw[..n], budget))
    && (forall k :: 1 <= k < n ==> Total(raw[..k]) < budget)
    && (1 <= n < |raw| ==> Total(raw[..n]) >= budget || Total(raw[..n + 1]) > budget)
  }

  /** Takes chunks in order until the token budget is exhausted. */
  method SelectChunksWithinBudget(raw: seq<LoadedChunk>, maxInputTokens: int)
    returns (selected: seq<LoadedChunk>, truncated: bool)
    ensures selected <= raw && Selects(raw, |selected|, maxInputTokens)
    ensures truncated <==> selected != raw
  {
    selected := [];
    var usedTokens := 0;
    for i := 0 to |raw|
      invariant selected == raw[..i] && usedTokens == Total(selected)
      invariant i > 0 ==> FitsBudget(selected, maxInputTokens)
      invariant forall k :: 1 <= k <= i ==> Total(raw[..k]) < maxInputTokens
    {
      var chunkTokens := CountTokens(raw[i].content);
      ExtendPrefix(raw, i);
      if selected != [] && usedTokens + chunkTokens > maxInputTokens {
        return selected, true;
      }
      selected := selected + [raw[i]];
      usedTokens := usedTokens + chunkTokens;
      if usedTokens >= maxInputTokens {
        return selected, |selected| < |raw|;
      }
    }
    return selected, false;
  }

  lemma ExtendPrefix(raw: seq<LoadedChunk>, i: nat)
    requires i < |raw|
    ensures raw[..i] + [raw[i]] == raw[..i + 1]
    ensures Total(raw[..i + 1]) == Total(raw[..i]) + CountTokens(raw[i].content)
  {
    TotalSnoc(raw[..i], raw[i]);
    assert raw[..i] + [raw[i]] == raw[..i + 1];
  }

  /**
   Selection is the first greedy batch under the same budget, except that it may leave out
   chunks without tokens that follow the point where the budget was met exactly.
   */
  lemma SelectionIsFirstBatch(raw: seq<LoadedChunk>, n: nat, budget: int)
    requires raw != [] && Selects(raw, n, budget)
    ensures n <= FirstBatch(raw, budget)
    ensures Total(raw[..n]) == Total(raw[..FirstBatch(raw, budget)])
    ensures Total(raw[..n]) != budget ==> n == FirstBatch(raw, budget)
  {
    forall i, j | 0 <= i <= j <= |raw|
      ensures Total(raw[..i]) <= Total(raw[..j])
    {
      PrefixTotal(raw, i, j);
    }
  }

  // ----- how many batches a selected input can need

  lemma SplitOffBatch(chunks: seq<LoadedChunk>, budget: int) returns (n: nat, rest: seq<LoadedChunk>)
    requires chunks != []
    ensures 1 <= n <= |chunks| && rest == chunks[n..]
    ensures Greedy(chunks, budget) == [chunks[..n]] + Greedy(rest, budget)
    ensures Total(chunks) == Total(chunks[..n]) + Total(rest)
    ensures n < |chunks| ==> Total(chunks[..n + 1]) > budget
  {
    n := FirstBatch(chunks, budget);
    rest := chunks[n..];
    GreedyUnfold(chunks, budget);
    assert chunks == chunks[..n] + rest;
    TotalAppend(chunks[..n], rest);
  }

  /** The first two greedy batches together pass the budget; `rest` is what they leave. */
  lemma TwoBatches(chunks: seq<LoadedChunk>, budget: int) returns (rest: seq<LoadedChunk>)
    requires |Greedy(chunks, budget)| >= 2
    ensures |Greedy(chunks, budget)| == 2 + |Greedy(rest, budget)|
    ensures Total(chunks) > budget + Total(rest)
  {
    var n, tail := SplitOffBatch(chunks, budget);
    var m, rest' := SplitOffBatch(tail, budget);
    NeighboursOverflow(chunks, n, m, budget);
    rest := rest';
  }

  lemma NeighboursOverflow(chunks: seq<LoadedChunk>, n: nat, m: nat, budget: int)
    requires n < n + m <= |chunks| && Total(chunks[..n + 1]) > budget
    ensures Total(chunks[..n]) + Total(chunks[n..][..m]) > budget
  {
    TwoSlices(chunks, n, m);
    TotalAppend(chunks[..n], chunks[n..][..m]);
    PrefixTotal(chunks, n + 1, n + m);
  }

  /** Next-fit bound: `2k` greedy batches need more than `k` budgets of tokens. */
  lemma {:induction false} NextFitBound(chunks: seq<LoadedChunk>, budget: nat, k: nat)
    requires |Greedy(chunks, budget)| >= 2 * k > 0
    ensures Total(chunks) > k * budget
    decreases k
  {
    var rest := TwoBatches(chunks, budget);
    if k > 1 {
      NextFitBound(rest, budget, k - 1);
      assert k * budget == (k - 1) * budget + budget;
    }
  }

  /** An input selected under `m` budgets is batched into at most `2m - 1` batches. */
  lemma SelectedInputBatches(raw: seq<LoadedChunk>, n: nat, budget: nat, m: nat)
    requires m >= 1 && raw != [] && Selects(raw, n, m * budget)
    ensures 1 <= |Greedy(raw[..n], budget)| <= 2 * m - 1
  {
    GreedyUnfold(raw[..n], budget);
    if n == 1 {
      assert |Greedy(raw[..1], budget)| == 1;
    } else if |Greedy(raw[..n], budget)| >= 2 * m {
      NextFitBound(raw[..n], budget, m);
    }
  }

  /** What the summary tool reads of a document: the chunks loaded, the batches kept, and its two truncation flags. */
  datatype SummaryInput = SummaryInput(
    loaded: seq<LoadedChunk>, batches: seq<seq<LoadedChunk>>, reportedTruncated: bool, budgetTruncated: bool)

  /** Loads a document under three budgets, batches it by one, and keeps the first three batches. */
  method SummarizeInput(raw: seq<LoadedChunk>) returns (input: SummaryInput)
    requires raw != []
    ensures IsSummaryInput(raw, input)
    ensures 1 <= |input.batches| <= MAX_SUMMARY_BATCHES
    ensures Flatten(input.batches) <= input.loaded <= raw
    ensures input.budgetTruncated <==> Flatten(input.batches) != raw
    ensures input.reportedTruncated <==> input.loaded != raw
  {
    var loaded, truncated := SelectChunksWithinBudget(raw, MAX_TOOL_INPUT_TOKENS * MAX_SUMMARY_BATCHES);
    var allBatches := BatchChunksByTokenBudget(loaded, MAX_TOOL_INPUT_TOKENS);
    var batches := if |allBatches| <= MAX_SUMMARY_BATCHES then allBatches else allBatches[..MAX_SUMMARY_BATCHES];
    input := SummaryInput(loaded, batches, truncated, truncated || |batches| < |allBatches|);
    assert raw[..|loaded|] == loaded;
    SelectedInputBatches(raw, |loaded|, MAX_TOOL_INPUT_TOKENS, MAX_SUMMARY_BATCHES);
    CapIsExact(loaded, batches, MAX_TOOL_INPUT_TOKENS);
  }

  ghost predicate IsSummaryInput(raw: seq<LoadedChunk>, input: SummaryInput) {
    var all := Greedy(input.loaded, MAX_TOOL_INPUT_TOKENS);
    && input.loaded <= raw
    && Selects(raw, |input.loaded|, MAX_TOOL_INPUT_TOKENS * MAX_SUMMARY_BATCHES)
    && |all| <= 2 * MAX_SUMMARY_BATCHES - 1
    && input.batches == (if |all| <= MAX_SUMMARY_BATCHES then all else all[..MAX_SUMMARY_BATCHES])
    && (input.reportedTruncated <==> input.loaded != raw)
    && (input.budgetTruncated <==> input.loaded != raw || input.batches != all)
  }

  // ----- the summary itself

  /**
   The language model's side.  `summarize` sees the position of a batch, the number of batches
   and the batch; `merge` sees the partial summaries.  Answers are stripped; `None` is a call or
   an answer that raises.
   */
  datatype Model = Model(
    summarize: (nat, nat, seq<LoadedChunk>) -> Option<string>, merge: seq<string> -> Option<string>)

  datatype SummaryError = CompletionError

  /** The tool's answer; `noted` says whether the truncation note was appended to the content. */
  datatype Answer = Answer(content: string, noted: bool, truncated: bool)

  const NO_SUMMARY := "No summary could be produced from the document content."
  const TRUNCATION_NOTE := "\n\n(Note: input was truncated to the tool token budget.)"

  /** No call for the first `n` batches raises. */
  ghost predicate AllAnswered(model: Model, batches: seq<seq<LoadedChunk>>, n: nat)
    requires n <= |batches|
  {
    forall i :: 0 <= i < n ==> model.summarize(i + 1, |batches|, batches[i]).Some?
  }

  /** The non-empty answers for the first `n` batches, in order. */
  ghost function Partials(model: Model, batches: seq<seq<LoadedChunk>>, n: nat): (partials: seq<string>)
    requires n <= |batches| && AllAnswered(model, batches, n)
    ensures partials == [] <==> forall i :: 0 <= i < n ==> model.summarize(i + 1, |batches|, batches[i]) == Some("")
  {
    if n == 0 then []
    else
      var answer := model.summarize(n, |batches|, batches[n - 1]).value;
      Partials(model, batches, n - 1) + if answer == "" then [] else [answer]
  }

  /** The batch at position `i` is answered with this text. */
  ghost predicate AnsweredWith(model: Model, batches: seq<seq<LoadedChunk>>, i: nat, text: string) {
    i < |batches| && text != "" && model.summarize(i + 1, |batches|, batches[i]) == Some(text)
  }

  /** `at` are positions in order of batches that are answered with text, `texts` those texts. */
  ghost predicate PicksAnswers(model: Model, batches: seq<seq<LoadedChunk>>, n: nat, at: seq<nat>, texts: seq<string>) {
    && |at| == |texts|
    && (forall k :: 0 <= k < |at| ==> at[k] < n && AnsweredWith(model, batches, at[k], texts[k]))
    && forall k, l :: 0 <= k < l < |at| ==> at[k] < at[l]
  }

  /** No other of the first `n` batches is answered with text. */
  ghost predicate NoOtherAnswer(model: Model, batches: seq<seq<LoadedChunk>>, n: nat, at: seq<nat>) {
    forall i: nat, text :: i < n && AnsweredWith(model, batches, i, text) ==> i in at
  }

  /** Every text that answers a batch is kept, in the order of the batches. */
  lemma {:induction false} PartialsExactly(model: Model, batches: seq<seq<LoadedChunk>>, n: nat) returns (at: seq<nat>)
    requires n <= |batches| && AllAnswered(model, batches, n)
    ensures PicksAnswers(model, batches, n, at, Partials(model, batches, n)) && NoOtherAnswer(model, batches, n, at)
  {
    if n == 0 {
      at := [];
    } else {
      var before := PartialsExactly(model, batches, n - 1);
      var answer := model.summarize(n, |batches|, batches[n - 1]).value;
      at := if answer == "" then before else before + [n - 1];
      PicksNextAnswer(model, batches, n, before, Partials(model, batches, n - 1), answer);
      NoOtherNext(model, batches, n, before, at, answer);
    }
  }

  lemma PicksNextAnswer(model: Model, batches: seq<seq<LoadedChunk>>, n: nat, before: seq<nat>, texts: seq<string>,
      answer: string)
    requires 1 <= n <= |batches| && PicksAnswers(model, batches, n - 1, before, texts)
    requires model.summarize(n, |batches|, batches[n - 1]) == Some(answer)
    ensures PicksAnswers(model, batches, n, before, texts)
    ensures answer != "" ==> PicksAnswers(model, batches, n, before + [n - 1], texts + [answer])
  {
  }

  lemma NoOtherNext(model: Model, batches: seq<seq<LoadedChunk>>, n: nat, before: seq<nat>, at: seq<nat>,
      answer: string)
    requires 1 <= n <= |batches| && NoOtherAnswer(model, batches, n - 1, before)
    requires model.summarize(n, |batches|, batches[n - 1]) == Some(answer)
    requires at == if answer == "" then before else before + [n - 1]
    ensures NoOtherAnswer(model, batches, n, at)
  {
    forall i: nat, text | i < n && AnsweredWith(model, batches, i, text)
      ensures i in at
    {
      if i == n - 1 {
        assert at[|at| - 1] == n - 1;
      } else {
        assert i in before;
      }
    }
  }

  /** Summarises the batches one after the other and keeps what is not empty. */
  method CollectPartials(batches: seq<seq<LoadedChunk>>, model: Model) returns (r: Option<seq<string>>)
    ensures r.Some? <==> AllAnswered(model, batches, |batches|)
    ensures r.Some? ==> r.value == Partials(model, batches, |batches|)
  {
    var partials: seq<string> := [];
    for index := 0 to |batches|
      invariant AllAnswered(model, batches, index)
      invariant partials == Partials(model, batches, index)
    {
      var answer := model.summarize(index + 1, |batches|, batches[index]);
      if answer.None? {
        return None;
      }
      if answer.value != "" {
        partials := partials + [answer.value];
      }
    }
    return Some(partials);
  }

  /**
   Summarises a document.  The note is appended exactly when chunks of the document were not
   summarised and some batch was answered with text.
   */
  method SummarizeDocument(raw: seq<LoadedChunk>, model: Model)
    returns (input: SummaryInput, r: Result<Answer, SummaryError>)
    requires raw != []
    ensures IsSummaryInput(raw, input)
    ensures r.Err? <==>
      || !AllAnswered(model, input.batches, |input.batches|)
      || (var partials := Partials(model, input.batches, |input.batches|);
          |partials| >= 2 && model.merge(partials).None?)
    ensures r.Ok? ==>
      var n := |input.batches|;
      var partials := Partials(model, input.batches, n);
      && (r.value.noted <==>
          && Flatten(input.batches) != raw
          && exists i :: 0 <= i < n && model.summarize(i + 1, n, input.batches[i]) != Some(""))
      && (r.value.truncated <==> input.loaded != raw)
      && var note := if r.value.noted then TRUNCATION_NOTE else "";
        && (partials == [] ==> r.value.content == NO_SUMMARY + note)
        && (|partials| == 1 ==> r.value.content == partials[0] + note)
        && (|partials| >= 2 ==> r.value.content == model.merge(partials).value + note)
  {
    input := SummarizeInput(raw);
    var partials := CollectPartials(input.batches, model);
    if partials.None? {
      return input, Err(CompletionError);
    }
    if partials.value == [] {
      assert NO_SUMMARY + "" == NO_SUMMARY;
      return input, Ok(Answer(NO_SUMMARY, false, input.reportedTruncated));
    }
    var summary := if |partials.value| == 1 then Some(partials.value[0]) else model.merge(partials.value);
    if summary.None? {
      return input, Err(CompletionError);
    }
    var note := if input.budgetTruncated then TRUNCATION_NOTE else "";
    return input, Ok(Answer(summary.value + note, input.budgetTruncated, input.reportedTruncated));
  }

  /** Keeping a proper prefix of the batches always loses chunks, because no batch is empty. */
  lemma CapIsExact(chunks: seq<LoadedChunk>, kept: seq<seq<LoadedChunk>>, budget: int)
    requires kept <= Greedy(chunks, budget)
    ensures Flatten(kept) <= chunks
    ensures Flatten(kept) == chunks <==> kept == Greedy(chunks, budget)
  {
    var all := Greedy(chunks, budget);
    GreedyIsLegal(chunks, budget);
    var lost := all[|kept|..];
    assert all == kept + lost;
    FlattenAppend(kept, lost);
    if lost != [] {
      assert lost[0] == all[|kept|] != [];
    }
  }

  /** Is the whole document selected?  Everything fits, and nothing before the last chunk fills the budget. */
  ghost predicate TakenWhole(raw: seq<LoadedChunk>, budget: int) {
    |raw| <= 1 || (Total(raw) <= budget && Total(raw[..|raw| - 1]) < budget)
  }

  lemma TakenWholeExactly(raw: seq<LoadedChunk>, n: nat, budget: int)
    requires raw != [] && Selects(raw, n, budget)
    ensures n == |raw| <==> TakenWhole(raw, budget)
  {
    assert raw[..|raw|] == raw;
    forall i, j | 0 <= i <= j <= |raw|
      ensures Total(raw[..i]) <= Total(raw[..j])
    {
      PrefixTotal(raw, i, j);
    }
  }

  /**
   The `truncated` field of the tool's answer looks at selection only.  It says whether chunks
   of the document were left unsummarised exactly when the document is not selected whole or
   needs no more than three batches.
   */
  lemma ReportedTruncationExact(raw: seq<LoadedChunk>, input: SummaryInput)
    requires raw != [] && IsSummaryInput(raw, input)
    ensures (input.reportedTruncated <==> Flatten(input.batches) != raw)
       <==> (TakenWhole(raw, MAX_TOOL_INPUT_TOKENS * MAX_SUMMARY_BATCHES)
             ==> |Greedy(raw, MAX_TOOL_INPUT_TOKENS)| <= MAX_SUMMARY_BATCHES)
  {
    CapIsExact(input.loaded, input.batches, MAX_TOOL_INPUT_TOKENS);
    TakenWholeExactly(raw, |input.loaded|, MAX_TOOL_INPUT_TOKENS * MAX_SUMMARY_BATCHES);
  }

  function Copies(chunk: LoadedChunk, k: nat): (r: seq<LoadedChunk>)
    ensures |r| == k && forall i :: 0 <= i < k ==> r[i] == chunk
  {
    seq(k, _ => chunk)
  }

  lemma {:induction false} TotalOfCopies(chunk: LoadedChunk, k: nat)
    ensures Total(Copies(chunk, k)) == k * CountTokens(chunk.content)
  {
    if k > 0 {
      assert Copies(chunk, k)[1..] == Copies(chunk, k - 1);
      TotalOfCopies(chunk, k - 1);
      assert k * CountTokens(chunk.content) == (k - 1) * CountTokens(chunk.content) + CountTokens(chunk.content);
    }
  }

  lemma {:induction false} CopiesDoNotPair(chunk: LoadedChunk, k: nat, budget: int)
    requires 2 * CountTokens(chunk.content) > budget
    ensures |Greedy(Copies(chunk, k), budget)| == k
  {
    if k > 0 {
      var chunks := Copies(chunk, k);
      if k > 1 {
        assert chunks[..2] == Copies(chunk, 2);
        TotalOfCopies(chunk, 2);
      }
      GreedyUnfold(chunks, budget);
      GroupLengthIs(WithinBudget(budget), [], chunks, 1);
      assert chunks[1..] == Copies(chunk, k - 1);
      CopiesDoNotPair(chunk, k - 1, budget);
    }
  }

  /**
   The bound of five batches is reached, and with it the answer is wrong about itself: five
   chunks of 3001 tokens pass selection whole, two of them are never summarised, and the
   `truncated` field is false.
   */
  lemma UnreportedTruncation(input: SummaryInput)
    requires IsSummaryInput(Copies(LoadedChunk(0, seq(12004, _ => 'a')), 5), input)
    ensures |Greedy(input.loaded, MAX_TOOL_INPUT_TOKENS)| == 2 * MAX_SUMMARY_BATCHES - 1
    ensures !input.reportedTruncated && input.budgetTruncated
  {
    var chunk := LoadedChunk(0, seq(12004, _ => 'a'));
    var raw, n := Copies(chunk, 5), |input.loaded|;
    assert CountTokens(chunk.content) == 3001;
    if n < 5 {
      assert raw[..n] == Copies(chunk, n) && raw[..n + 1] == Copies(chunk, n + 1);
      TotalOfCopies(chunk, n);
      TotalOfCopies(chunk, n + 1);
    }
    assert input.loaded == raw;
    CopiesDoNotPair(chunk, 5, MAX_TOOL_INPUT_TOKENS);
  }
}
