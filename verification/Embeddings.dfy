/**
 Batched embedding of a document's chunks, with one immediate retry per batch and one usage
 event per batch.

 The provider is any function of the number of calls made before and of the texts, so it may
 answer differently each time it is asked.
 */
module Embeddings {
  import opened Arithmetic
  import opened Sequences
  import opened Wrappers
  import opened Numerals
  import opened Chunker

  type Vector = seq<real>

  datatype Reply =
    | Embedded(vectors: seq<Vector>, model: string, tokens: nat)
    | Raised(message: string, retryable: bool)

  type Provider = (nat, seq<string>) -> Reply

  datatype EmbeddedChunk = EmbeddedChunk(content: string, chunkIndex: nat, metadata: Metadata, embedding: Vector,
      model: string)

  datatype EmbeddingError = EmbeddingError(message: string, retryable: bool)

  datatype EventStatus = SUCCESS | FAILED

  datatype UsageEvent = UsageEvent(status: EventStatus, batchSize: nat, model: string, tokens: nat)

  function Contents(chunks: seq<ContentChunk>): (texts: seq<string>)
    ensures |texts| == |chunks|
  {
    seq(|chunks|, i requires 0 <= i < |chunks| => chunks[i].content)
  }

  // ----- one batch

  datatype Outcome = Outcome(reply: Result<Reply, EmbeddingError>, calls: nat)

  const AFTER_RETRY := "Embedding generation failed after retry: "

  function MismatchMessage(vectors: nat, texts: nat): string {
    "Embedding provider returned " + Decimal(vectors) + " vectors for " + Decimal(texts) + " texts"
  }

  /** A reply that does not raise ends the attempts: it is used, or refused for its number of vectors. */
  function Accept(reply: Reply, texts: seq<string>): Result<Reply, EmbeddingError>
    requires reply.Embedded?
  {
    if |reply.vectors| != |texts| then Err(EmbeddingError(MismatchMessage(|reply.vectors|, |texts|), false))
    else Ok(reply)
  }

  function EmbedBatch(provider: Provider, calls: nat, texts: seq<string>): Outcome {
    var first := provider(calls, texts);
    if first.Embedded? then Outcome(Accept(first, texts), calls + 1)
    else
      var second := provider(calls + 1, texts);
      if second.Embedded? then Outcome(Accept(second, texts), calls + 2)
      else Outcome(Err(EmbeddingError(AFTER_RETRY + second.message, second.retryable)), calls + 2)
  }

  method EmbedBatchWithRetry(provider: Provider, callsBefore: nat, texts: seq<string>) returns (outcome: Outcome)
    ensures outcome == EmbedBatch(provider, callsBefore, texts)
  {
    var lastError: Option<Reply> := None;
    for attempt := 0 to 2
      invariant attempt > 0 ==> provider(callsBefore, texts).Raised?
      invariant attempt == 2 ==> lastError == Some(provider(callsBefore + 1, texts)) && lastError.value.Raised?
    {
      var result := provider(callsBefore + attempt, texts);
      if result.Embedded? {
        if |result.vectors| != |texts| {
          var message := MismatchMessage(|result.vectors|, |texts|);
          return Outcome(Err(EmbeddingError(message, false)), callsBefore + attempt + 1);
        }
        return Outcome(Ok(result), callsBefore + attempt + 1);
      }
      lastError := Some(result);
    }
    return Outcome(
      Err(EmbeddingError(AFTER_RETRY + lastError.value.message, lastError.value.retryable)),
      callsBefore + 2);
  }

  // ----- all batches

  datatype Embedding = Embedding(result: Result<seq<EmbeddedChunk>, EmbeddingError>, events: seq<UsageEvent>,
      calls: nat)

  function Zip(batch: seq<ContentChunk>, reply: Reply): (r: seq<EmbeddedChunk>)
    requires reply.Embedded? && |reply.vectors| == |batch|
    ensures |r| == |batch|
  {
    seq(|batch|, i requires 0 <= i < |batch| =>
      EmbeddedChunk(batch[i].content, batch[i].chunkIndex, batch[i].metadata, reply.vectors[i], reply.model))
  }

  function EmbedAll(provider: Provider, calls: nat, chunks: seq<ContentChunk>, batchSize: nat, model: string): Embedding
    requires batchSize >= 1
    decreases |chunks|
  {
    if chunks == [] then Embedding(Ok([]), [], calls)
    else
      var n := Min(batchSize, |chunks|);
      var outcome := EmbedBatch(provider, calls, Contents(chunks[..n]));
      match outcome.reply
      case Err(e) => Embedding(Err(e), [UsageEvent(FAILED, n, model, 0)], outcome.calls)
      case Ok(reply) =>
        var rest := EmbedAll(provider, outcome.calls, chunks[n..], batchSize, model);
        Prepend(Zip(chunks[..n], reply), UsageEvent(SUCCESS, n, reply.model, reply.tokens), rest)
  }

  function Prepend(done: seq<EmbeddedChunk>, event: UsageEvent, rest: Embedding): Embedding {
    Embedding(if rest.result.Ok? then Ok(done + rest.result.value) else rest.result, [event] + rest.events, rest.calls)
  }

  /** What earlier batches produced, put in front of what the rest produces. */
  ghost function Resume(done: seq<EmbeddedChunk>, events: seq<UsageEvent>, rest: Embedding): Embedding {
    Embedding(if rest.result.Ok? then Ok(done + rest.result.value) else rest.result, events + rest.events, rest.calls)
  }

  lemma ResumePrepend(done: seq<EmbeddedChunk>, events: seq<UsageEvent>, batch: seq<EmbeddedChunk>, event: UsageEvent,
      rest: Embedding)
    ensures Resume(done, events, Prepend(batch, event, rest)) == Resume(done + batch, events + [event], rest)
  {
    assert events + ([event] + rest.events) == (events + [event]) + rest.events;
    if rest.result.Ok? {
      assert done + (batch + rest.result.value) == (done + batch) + rest.result.value;
    }
  }

  /** Embeds chunks in batches with usage logging and one retry. */
  method EmbedContentChunks(provider: Provider, chunks: seq<ContentChunk>, batchSize: nat, model: string)
    returns (r: Embedding)
    requires batchSize >= 1
    ensures r == EmbedAll(provider, 0, chunks, batchSize, model)
  {
    var embeddedChunks: seq<EmbeddedChunk>, events: seq<UsageEvent>, calls := [], [], 0;
    var batchStart := 0;
    ghost var rest := chunks;
    ghost var all := EmbedAll(provider, 0, chunks, batchSize, model);
    assert Resume([], [], all) == all by {
      if all.result.Ok? {
        assert [] + all.result.value == all.result.value;
      }
    }
    while batchStart < |chunks|
      invariant 0 <= batchStart
      invariant rest == if batchStart <= |chunks| then chunks[batchStart..] else []
      invariant all == Resume(embeddedChunks, events, EmbedAll(provider, calls, rest, batchSize, model))
      decreases |chunks| - batchStart
    {
      var end := if batchStart + batchSize < |chunks| then batchStart + batchSize else |chunks|;
      var batch := chunks[batchStart..end];
      BatchIsPrefix(chunks, batchStart, batchSize);
      var outcome := EmbedBatchWithRetry(provider, calls, Contents(batch));
      calls := outcome.calls;
      if outcome.reply.Err? {
        events := events + [UsageEvent(FAILED, |batch|, model, 0)];
        return Embedding(Err(outcome.reply.error), events, calls);
      }
      var reply := outcome.reply.value;
      var zipped := ZipStrict(batch, reply);
      rest := if batchStart + batchSize <= |chunks| then chunks[batchStart + batchSize..] else [];
      ResumePrepend(embeddedChunks, events, zipped, UsageEvent(SUCCESS, |batch|, reply.model, reply.tokens),
        EmbedAll(provider, calls, rest, batchSize, model));
      events := events + [UsageEvent(SUCCESS, |batch|, reply.model, reply.tokens)];
      embeddedChunks := embeddedChunks + zipped;
      batchStart := batchStart + batchSize;
    }
    assert embeddedChunks + [] == embeddedChunks && events + [] == events;
    return Embedding(Ok(embeddedChunks), events, calls);
  }

  lemma BatchIsPrefix(chunks: seq<ContentChunk>, start: nat, batchSize: nat)
    requires start < |chunks| && batchSize >= 1
    ensures
      var rest := chunks[start..];
      var n := Min(batchSize, |rest|);
      && rest[..n] == chunks[start..if start + batchSize < |chunks| then start + batchSize else |chunks|]
      && rest[n..] == if start + batchSize <= |chunks| then chunks[start + batchSize..] else []
  {
  }

  /** `zip(batch, vectors, strict=True)`, one embedded chunk appended per pair. */
  method ZipStrict(batch: seq<ContentChunk>, reply: Reply) returns (embedded: seq<EmbeddedChunk>)
    requires reply.Embedded? && |reply.vectors| == |batch|
    ensures embedded == Zip(batch, reply)
  {
    embedded := [];
    for i := 0 to |batch|
      invariant |embedded| == i
      invariant forall j :: 0 <= j < i ==> embedded[j] == Zip(batch, reply)[j]
    {
      embedded := embedded + [EmbeddedChunk(batch[i].content, batch[i].chunkIndex, batch[i].metadata, reply.vectors[i],
        reply.model)];
    }
  }

  // ----- what embedding promises

  ghost function TotalBatchSize(events: seq<UsageEvent>): nat {
    if events == [] then 0 else events[0].batchSize + TotalBatchSize(events[1..])
  }

  /**
   `out` is `chunk` with a vector that the provider returned for `texts` at position `k`, in a
   call from `lo` to `hi`.
   */
  ghost predicate IsEmbeddingOf(out: EmbeddedChunk, chunk: ContentChunk, provider: Provider, lo: nat, hi: nat,
      texts: seq<string>, k: nat) {
    && out.content == chunk.content && out.chunkIndex == chunk.chunkIndex && out.metadata == chunk.metadata
    && exists c: nat ::
      && lo <= c < hi
      && provider(c, texts).Embedded? && |provider(c, texts).vectors| == |texts| && k < |texts|
      && out.embedding == provider(c, texts).vectors[k] && out.model == provider(c, texts).model
  }

  /** The `k`-th batch: `b` chunks from position `k * b` on, or as many as there are. */
  ghost function BatchOf(chunks: seq<ContentChunk>, b: nat, k: nat): seq<ContentChunk> {
    chunks[Min(k * b, |chunks|)..Min(k * b + b, |chunks|)]
  }

  lemma FirstBatchOf(chunks: seq<ContentChunk>, b: nat)
    ensures BatchOf(chunks, b, 0) == chunks[..Min(b, |chunks|)]
  {
  }

  lemma LaterBatchOf(chunks: seq<ContentChunk>, b: nat, k: nat)
    ensures BatchOf(chunks[Min(b, |chunks|)..], b, k) == BatchOf(chunks, b, k + 1)
  {
    assert (k + 1) * b == k * b + b;
    SliceAgain(chunks, b, k * b);
  }

  lemma SliceAgain(chunks: seq<ContentChunk>, b: nat, from: nat)
    ensures var rest := chunks[Min(b, |chunks|)..];
      rest[Min(from, |rest|)..Min(from + b, |rest|)]
      == chunks[Min(from + b, |chunks|)..Min(from + b + b, |chunks|)]
  {
    var n := Min(b, |chunks|);
    SuffixSlice(chunks, n, Min(from, |chunks| - n), Min(from + b, |chunks| - n));
  }

  /** Position `i` is place `i % b` of batch `i / b`. */
  lemma NextPlace(b: nat, i: nat)
    requires i >= b >= 1
    ensures i / b == (i - b) / b + 1 && i % b == (i - b) % b
  {
    var q, r := (i - b) / b, (i - b) % b;
    assert i - b == q * b + r && (q + 1) * b == q * b + b;
    QuotientIs(i, b, q + 1, r);
  }

  lemma QuotientIs(i: nat, b: nat, q: nat, r: nat)
    requires r < b && i == q * b + r
    ensures i / b == q && i % b == r
  {
    var p := i / b;
    assert (p - q) * b == p * b - q * b == r - i % b;
    if p < q {
      AtLeastOnce(b, q - p);
    } else if p > q {
      AtLeastOnce(b, p - q);
    }
  }

  lemma AtLeastOnce(b: nat, d: nat)
    requires d >= 1
    ensures d * b >= b
  {
    assert d * b == b + (d - 1) * b && (d - 1) * b >= 0;
  }

  lemma FirstPlace(b: nat, i: nat)
    requires i < b
    ensures i / b == 0 && i % b == i
  {
    QuotientIs(i, b, 0, i);
  }

  lemma EmbedBatchReply(provider: Provider, calls: nat, texts: seq<string>)
    ensures var o := EmbedBatch(provider, calls, texts);
      && calls < o.calls <= calls + 2
      && (o.reply.Ok? ==>
        && o.reply.value == provider(o.calls - 1, texts)
        && o.reply.value.Embedded? && |o.reply.value.vectors| == |texts|)
  {
  }

  /** Success: the output is the input chunk for chunk, each with the vector of its place in its batch. */
  lemma {:induction false} SuccessMapsEveryChunk(provider: Provider, calls: nat, chunks: seq<ContentChunk>,
      batchSize: nat, model: string, i: nat)
    requires batchSize >= 1 && i < |chunks| && EmbedAll(provider, calls, chunks, batchSize, model).result.Ok?
    ensures var r := EmbedAll(provider, calls, chunks, batchSize, model);
      && |r.result.value| == |chunks|
      && IsEmbeddingOf(r.result.value[i], chunks[i], provider, calls, r.calls,
        Contents(BatchOf(chunks, batchSize, i / batchSize)), i % batchSize)
    decreases |chunks|
  {
    var n := Min(batchSize, |chunks|);
    var outcome := EmbedBatch(provider, calls, Contents(chunks[..n]));
    var rest := EmbedAll(provider, outcome.calls, chunks[n..], batchSize, model);
    CallsGrow(provider, outcome.calls, chunks[n..], batchSize, model);
    SuccessLength(provider, outcome.calls, chunks[n..], batchSize, model);
    if i < n {
      FirstPlace(batchSize, i);
      FirstBatchOf(chunks, batchSize);
      BatchMapsChunk(provider, calls, chunks[..n], i, rest.calls);
    } else {
      EmbedBatchReply(provider, calls, Contents(chunks[..n]));
      SuccessMapsEveryChunk(provider, outcome.calls, chunks[n..], batchSize, model, i - n);
      LaterChunk(provider, calls, outcome.calls, chunks, batchSize, i, rest.result.value[i - n], rest.calls);
    }
  }

  lemma LaterChunk(provider: Provider, lower: nat, lo: nat, chunks: seq<ContentChunk>, b: nat, i: nat,
      out: EmbeddedChunk, hi: nat)
    requires 1 <= b <= i < |chunks| && lower <= lo
    requires IsEmbeddingOf(out, chunks[i], provider, lo, hi, Contents(BatchOf(chunks[b..], b, (i - b) / b)), (i - b) % b)
    ensures IsEmbeddingOf(out, chunks[i], provider, lower, hi, Contents(BatchOf(chunks, b, i / b)), i % b)
  {
    NextPlace(b, i);
    LaterBatchOf(chunks, b, (i - b) / b);
    WiderCalls(out, chunks[i], provider, lo, lower, hi, Contents(BatchOf(chunks, b, i / b)), i % b);
  }

  lemma BatchMapsChunk(provider: Provider, calls: nat, batch: seq<ContentChunk>, i: nat, hi: nat)
    requires i < |batch|
    requires var o := EmbedBatch(provider, calls, Contents(batch)); o.reply.Ok? && o.calls <= hi
    ensures var reply := EmbedBatch(provider, calls, Contents(batch)).reply.value;
      && reply.Embedded? && |reply.vectors| == |batch|
      && IsEmbeddingOf(Zip(batch, reply)[i], batch[i], provider, calls, hi, Contents(batch), i)
  {
    EmbedBatchReply(provider, calls, Contents(batch));
    var c := EmbedBatch(provider, calls, Contents(batch)).calls - 1;
    assert provider(c, Contents(batch)).Embedded?;
  }

  lemma WiderCalls(out: EmbeddedChunk, chunk: ContentChunk, provider: Provider, lo: nat, lower: nat, hi: nat,
      texts: seq<string>, k: nat)
    requires lower <= lo && IsEmbeddingOf(out, chunk, provider, lo, hi, texts, k)
    ensures IsEmbeddingOf(out, chunk, provider, lower, hi, texts, k)
  {
  }

  /**
   Success: one SUCCESS event per batch, ceil(n / batchSize) of them, whose batch sizes add up
   to the number of chunks.
   */
  lemma {:induction false} SuccessLength(provider: Provider, calls: nat, chunks: seq<ContentChunk>, batchSize: nat,
      model: string)
    requires batchSize >= 1
    ensures var r := EmbedAll(provider, calls, chunks, batchSize, model);
      r.result.Ok? ==>
        && |r.result.value| == |chunks|
        && TotalBatchSize(r.events) == |chunks|
        && (forall k :: 0 <= k < |r.events| ==> r.events[k].status == SUCCESS)
        && IsCeiling(batchSize, |r.events|, |chunks|)
    decreases |chunks|
  {
    var r := EmbedAll(provider, calls, chunks, batchSize, model);
    if chunks != [] && r.result.Ok? {
      var n := Min(batchSize, |chunks|);
      var outcome := EmbedBatch(provider, calls, Contents(chunks[..n]));
      var rest := EmbedAll(provider, outcome.calls, chunks[n..], batchSize, model);
      SuccessLength(provider, outcome.calls, chunks[n..], batchSize, model);
      assert r.events[1..] == rest.events;
      CeilingStep(batchSize, |rest.events|, |chunks|);
    }
  }

  /** `k` is the number of batches of size `b` that hold `n` items. */
  ghost predicate IsCeiling(b: nat, k: nat, n: nat) {
    n <= b * k && (n != 0 ==> b * (k - 1) < n) && (n == 0 ==> k == 0)
  }

  lemma CeilingStep(b: nat, k: nat, n: nat)
    requires b >= 1 && n >= 1 && IsCeiling(b, k, if n <= b then 0 else n - b)
    ensures IsCeiling(b, k + 1, n)
  {
    assert b * (k + 1) == b * k + b;
    if n > b {
      assert b * k == b * (k - 1) + b;
    }
  }

  /** No batch, embedded or not, costs more than two calls, and none less than one. */
  lemma {:induction false} CallsGrow(provider: Provider, calls: nat, chunks: seq<ContentChunk>, batchSize: nat,
      model: string)
    requires batchSize >= 1
    ensures var r := EmbedAll(provider, calls, chunks, batchSize, model);
      calls + |r.events| <= r.calls <= calls + 2 * |r.events|
    decreases |chunks|
  {
    if chunks != [] {
      var n := Min(batchSize, |chunks|);
      var outcome := EmbedBatch(provider, calls, Contents(chunks[..n]));
      EmbedBatchReply(provider, calls, Contents(chunks[..n]));
      if outcome.reply.Ok? {
        CallsGrow(provider, outcome.calls, chunks[n..], batchSize, model);
      }
    }
  }

  /**
   Failure: every batch before the failing one is logged as SUCCESS with the full batch size,
   the failing one as the only FAILED event and last, and at most one batch of chunks per event
   was looked at.
   */
  lemma {:induction false} FailureLogsPrefix(provider: Provider, calls: nat, chunks: seq<ContentChunk>, batchSize: nat,
      model: string)
    requires batchSize >= 1
    ensures var r := EmbedAll(provider, calls, chunks, batchSize, model);
      r.result.Err? ==>
        && FailureLog(r.events, batchSize)
        && TotalBatchSize(r.events) <= |chunks|
        && (TotalBatchSize(r.events) < |chunks| ==> r.events[|r.events| - 1].batchSize == batchSize)
    decreases |chunks|
  {
    var r := EmbedAll(provider, calls, chunks, batchSize, model);
    if chunks != [] && r.result.Err? {
      var n := Min(batchSize, |chunks|);
      var outcome := EmbedBatch(provider, calls, Contents(chunks[..n]));
      if outcome.reply.Ok? {
        var rest := EmbedAll(provider, outcome.calls, chunks[n..], batchSize, model);
        FailureLogsPrefix(provider, outcome.calls, chunks[n..], batchSize, model);
        assert r.events == [r.events[0]] + rest.events;
        LogGrows(r.events[0], rest.events, batchSize);
      }
    }
  }

  /** Full SUCCESS batches, then one FAILED batch. */
  ghost predicate FailureLog(events: seq<UsageEvent>, batchSize: nat) {
    && |events| >= 1
    && events[|events| - 1].status == FAILED && events[|events| - 1].tokens == 0
    && forall k :: 0 <= k < |events| - 1 ==> events[k].status == SUCCESS && events[k].batchSize == batchSize
  }

  lemma LogGrows(first: UsageEvent, rest: seq<UsageEvent>, batchSize: nat)
    requires FailureLog(rest, batchSize) && first.status == SUCCESS && first.batchSize == batchSize
    ensures FailureLog([first] + rest, batchSize)
  {
    var events := [first] + rest;
    assert forall k :: 1 <= k < |events| ==> events[k] == rest[k - 1];
  }

  /**
   The last call before `calls`, for these texts, explains the error: it raised, and so did the
   call before it, or it returned a wrong number of vectors.
   */
  ghost predicate FailsOn(provider: Provider, calls: nat, texts: seq<string>, error: EmbeddingError) {
    && calls >= 1
    && match provider(calls - 1, texts)
       case Raised(message, retryable) =>
         && calls >= 2 && provider(calls - 2, texts).Raised?
         && error == EmbeddingError(AFTER_RETRY + message, retryable)
       case Embedded(vectors, _, _) =>
         |vectors| != |texts| && error == EmbeddingError(MismatchMessage(|vectors|, |texts|), false)
  }

  /** Only exceptions are retried, and a failure is what the last call made of it. */
  lemma FailedBatchCause(provider: Provider, calls: nat, texts: seq<string>)
    ensures var o := EmbedBatch(provider, calls, texts);
      && (o.reply.Err? ==> FailsOn(provider, o.calls, texts, o.reply.error))
      && (o.calls == calls + 2 <==> provider(calls, texts).Raised?)
  {
  }

  // ----- batch by batch

  /** A reply that can be used for these texts. */
  ghost predicate Answers(reply: Reply, texts: seq<string>) {
    reply.Embedded? && |reply.vectors| == |texts|
  }

  /**
   The last call made, which is about the last batch looked at, decides the result: success if
   and only if it returned a vector for each text; if it raised, so did the call before it, and
   the error is its own; if it returned a wrong number of vectors, the error says so and is
   permanent.
   */
  lemma {:induction false} LastCallDecides(provider: Provider, calls: nat, chunks: seq<ContentChunk>, b: nat,
      model: string)
    requires b >= 1 && chunks != []
    ensures var r := EmbedAll(provider, calls, chunks, b, model);
      && r.events != [] && r.calls >= 1
      && var texts := Contents(BatchOf(chunks, b, |r.events| - 1));
        (r.result.Ok? <==> Answers(provider(r.calls - 1, texts), texts))
        && (r.result.Err? ==> FailsOn(provider, r.calls, texts, r.result.error))
    decreases |chunks|
  {
    if |EmbedAll(provider, calls, chunks, b, model).events| == 1 {
      OnlyCallDecides(provider, calls, chunks, b, model);
    } else {
      NoEventsNoFailure(provider, calls, chunks, b, model);
      var rest, later := AllButFirst(provider, calls, chunks, b, model);
      NoEventsNoFailure(provider, later, chunks[Min(b, |chunks|)..], b, model);
      LastCallDecides(provider, later, chunks[Min(b, |chunks|)..], b, model);
      LaterBatchOf(chunks, b, |rest.events| - 1);
    }
  }

  lemma OnlyCallDecides(provider: Provider, calls: nat, chunks: seq<ContentChunk>, b: nat, model: string)
    requires b >= 1 && |EmbedAll(provider, calls, chunks, b, model).events| == 1
    ensures
      var r := EmbedAll(provider, calls, chunks, b, model);
      var texts := Contents(BatchOf(chunks, b, 0));
      && r.calls >= 1
      && (r.result.Ok? <==> Answers(provider(r.calls - 1, texts), texts))
      && (r.result.Err? ==> FailsOn(provider, r.calls, texts, r.result.error))
  {
    var texts := Contents(chunks[..Min(b, |chunks|)]);
    FirstBatchOf(chunks, b);
    OnlyBatch(provider, calls, chunks, b, model);
    OneBatchDecides(provider, calls, texts);
  }

  lemma OneBatchDecides(provider: Provider, calls: nat, texts: seq<string>)
    ensures var o := EmbedBatch(provider, calls, texts);
      && o.calls >= 1
      && (o.reply.Ok? <==> Answers(provider(o.calls - 1, texts), texts))
      && (o.reply.Err? ==> FailsOn(provider, o.calls, texts, o.reply.error))
  {
    FailedBatchCause(provider, calls, texts);
    EmbedBatchReply(provider, calls, texts);
  }

  lemma OnlyBatch(provider: Provider, calls: nat, chunks: seq<ContentChunk>, b: nat, model: string)
    requires b >= 1 && |EmbedAll(provider, calls, chunks, b, model).events| == 1
    ensures var r, o := EmbedAll(provider, calls, chunks, b, model),
      EmbedBatch(provider, calls, Contents(chunks[..Min(b, |chunks|)]));
      && r.calls == o.calls && (r.result.Ok? <==> o.reply.Ok?)
      && (r.result.Err? ==> r.result.error == o.reply.error)
  {
    var n := Min(b, |chunks|);
    var o := EmbedBatch(provider, calls, Contents(chunks[..n]));
    if o.reply.Ok? {
      NoEventsNoFailure(provider, o.calls, chunks[n..], b, model);
    }
  }

  /** The texts that the last call is about: those of the last batch with an event. */
  ghost function LastTexts(chunks: seq<ContentChunk>, b: nat, e: Embedding): seq<string> {
    if e.events == [] then [] else Contents(BatchOf(chunks, b, |e.events| - 1))
  }

  /** What the provider answered when it was called last. */
  ghost function LastReply(provider: Provider, chunks: seq<ContentChunk>, b: nat, e: Embedding): Option<Reply> {
    if e.events == [] || e.calls == 0 then None else Some(provider(e.calls - 1, LastTexts(chunks, b, e)))
  }

  /** There was nothing to embed, or the last call returned a vector for each text. */
  ghost predicate EndsWell(last: Option<Reply>, texts: seq<string>) {
    last.None? || Answers(last.value, texts)
  }

  /** The last call, a second one for its batch, raised. */
  ghost predicate EndsRaised(last: Option<Reply>, message: string, retryable: bool) {
    && last.Some? && last.value.Raised?
    && last.value.retryable == retryable && message == AFTER_RETRY + last.value.message
  }

  /** The last call returned a wrong number of vectors. */
  ghost predicate EndsShort(last: Option<Reply>, texts: seq<string>, message: string) {
    && last.Some? && last.value.Embedded? && |last.value.vectors| != |texts|
    && message == MismatchMessage(|last.value.vectors|, |texts|)
  }

  /** The result of embedding, told by the last call alone. */
  lemma ResultExactly(provider: Provider, chunks: seq<ContentChunk>, b: nat, model: string, message: string,
      retryable: bool)
    requires b >= 1
    ensures
      var e := EmbedAll(provider, 0, chunks, b, model);
      var texts, last := LastTexts(chunks, b, e), LastReply(provider, chunks, b, e);
      && (e.result.Ok? <==> EndsWell(last, texts))
      && (e.result == Err(EmbeddingError(message, retryable)) <==>
          EndsRaised(last, message, retryable) || (!retryable && EndsShort(last, texts, message)))
  {
    NoEventsNoFailure(provider, 0, chunks, b, model);
    if chunks != [] {
      LastCallDecides(provider, 0, chunks, b, model);
    }
  }

  /** `list` is made of the chunks, in order, each with the vector of its place in its batch. */
  ghost predicate EmbedsEvery(provider: Provider, chunks: seq<ContentChunk>, b: nat, calls: nat,
      list: seq<EmbeddedChunk>)
    requires b >= 1
  {
    && |list| == |chunks|
    && forall i: nat :: i < |list| ==> EmbedsAt(provider, chunks, b, calls, list[i], i)
  }

  ghost predicate EmbedsAt(provider: Provider, chunks: seq<ContentChunk>, b: nat, calls: nat, out: EmbeddedChunk,
      i: nat)
    requires b >= 1 && i < |chunks|
  {
    IsEmbeddingOf(out, chunks[i], provider, 0, calls, Contents(BatchOf(chunks, b, i / b)), i % b)
  }

  lemma SuccessEmbedsEvery(provider: Provider, chunks: seq<ContentChunk>, b: nat, model: string)
    requires b >= 1 && EmbedAll(provider, 0, chunks, b, model).result.Ok?
    ensures var e := EmbedAll(provider, 0, chunks, b, model);
      EmbedsEvery(provider, chunks, b, e.calls, e.result.value)
  {
    var e := EmbedAll(provider, 0, chunks, b, model);
    SuccessLength(provider, 0, chunks, b, model);
    forall i: nat | i < |e.result.value|
      ensures EmbedsAt(provider, chunks, b, e.calls, e.result.value[i], i)
    {
      SuccessMapsEveryChunk(provider, 0, chunks, b, model, i);
    }
  }

  /**
   The event of a batch: a success with the model and the tokens of a reply that has a vector for
   each text, or a failure with the requested model.
   */
  ghost predicate IsEventOf(event: UsageEvent, provider: Provider, lo: nat, hi: nat, texts: seq<string>,
      model: string)
  {
    if event.status == FAILED then event == UsageEvent(FAILED, |texts|, model, 0)
    else
      exists c: nat ::
        && lo <= c < hi && Answers(provider(c, texts), texts)
        && event == UsageEvent(SUCCESS, |texts|, provider(c, texts).model, provider(c, texts).tokens)
  }

  /** Every batch looked at has its event, in order, and only the last of a failure is no success. */
  lemma {:induction false} EventsExactly(provider: Provider, calls: nat, chunks: seq<ContentChunk>, b: nat,
      model: string, k: nat)
    requires b >= 1 && k < |EmbedAll(provider, calls, chunks, b, model).events|
    ensures var r := EmbedAll(provider, calls, chunks, b, model);
      && BatchOf(chunks, b, k) != []
      && IsEventOf(r.events[k], provider, calls, r.calls, Contents(BatchOf(chunks, b, k)), model)
      && (r.events[k].status == FAILED <==> r.result.Err? && k == |r.events| - 1)
    decreases |chunks|
  {
    FirstEvent(provider, calls, chunks, b, model);
    if k > 0 {
      var rest, later := AllButFirst(provider, calls, chunks, b, model);
      EventsExactly(provider, later, chunks[Min(b, |chunks|)..], b, model, k - 1);
      LaterBatchOf(chunks, b, k - 1);
      EarlierCalls(rest.events[k - 1], provider, later, calls, rest.calls, Contents(BatchOf(chunks, b, k)), model);
    }
  }

  lemma FirstEvent(provider: Provider, calls: nat, chunks: seq<ContentChunk>, b: nat, model: string)
    requires b >= 1 && EmbedAll(provider, calls, chunks, b, model).events != []
    ensures var r := EmbedAll(provider, calls, chunks, b, model);
      && BatchOf(chunks, b, 0) != []
      && IsEventOf(r.events[0], provider, calls, r.calls, Contents(BatchOf(chunks, b, 0)), model)
      && (r.events[0].status == FAILED <==> r.result.Err? && |r.events| == 1)
  {
    var n := Min(b, |chunks|);
    var texts := Contents(chunks[..n]);
    var outcome := EmbedBatch(provider, calls, texts);
    FirstBatchOf(chunks, b);
    EmbedBatchReply(provider, calls, texts);
    if outcome.reply.Ok? {
      CallsGrow(provider, outcome.calls, chunks[n..], b, model);
      NoEventsNoFailure(provider, outcome.calls, chunks[n..], b, model);
      assert Answers(provider(outcome.calls - 1, texts), texts);
    }
  }

  lemma AllButFirst(provider: Provider, calls: nat, chunks: seq<ContentChunk>, b: nat, model: string)
    returns (rest: Embedding, later: nat)
    requires b >= 1 && |EmbedAll(provider, calls, chunks, b, model).events| > 1
    ensures rest == EmbedAll(provider, later, chunks[Min(b, |chunks|)..], b, model) && calls <= later
    ensures var r := EmbedAll(provider, calls, chunks, b, model);
      && r.events[1..] == rest.events && r.calls == rest.calls
      && (r.result.Err? <==> rest.result.Err?) && (r.result.Err? ==> r.result == rest.result)
  {
    var outcome := EmbedBatch(provider, calls, Contents(chunks[..Min(b, |chunks|)]));
    EmbedBatchReply(provider, calls, Contents(chunks[..Min(b, |chunks|)]));
    later := outcome.calls;
    rest := EmbedAll(provider, later, chunks[Min(b, |chunks|)..], b, model);
  }

  lemma EarlierCalls(event: UsageEvent, provider: Provider, lo: nat, lower: nat, hi: nat, texts: seq<string>,
      model: string)
    requires lower <= lo && IsEventOf(event, provider, lo, hi, texts, model)
    ensures IsEventOf(event, provider, lower, hi, texts, model)
  {
  }

  lemma NoEventsNoFailure(provider: Provider, calls: nat, chunks: seq<ContentChunk>, b: nat, model: string)
    requires b >= 1
    ensures var r := EmbedAll(provider, calls, chunks, b, model);
      (r.events == [] <==> chunks == []) && (r.events == [] ==> r.result.Ok?)
  {
  }
}
