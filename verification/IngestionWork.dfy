/**
 The work of one ingestion attempt: reading the file, extracting, chunking and embedding its
 text, and storing the result.
 */
module IngestionWork {
  import opened Wrappers
  import opened GreedyPacking
  import opened Chunker
  import opened Embeddings
  import opened Ingestion

  datatype Pipeline = Pipeline(chunking: Config, batchSize: nat, model: string, exhaustionHandled: bool)

  /** What the settings validation demands. */
  ghost predicate ValidPipeline(p: Pipeline) {
    p.chunking.chunkSize >= 1 && p.chunking.overlap < p.chunking.chunkSize && p.batchSize >= 1
  }

  function RetryOrFail(message: string, retryable: bool): Verdict {
    if retryable then Retry(message) else Fail(message)
  }

  /** Chunking and embedding the extracted text. */
  ghost function EmbeddingOf(p: Pipeline, env: Environment): Embedding
    requires ValidPipeline(p) && env.extraction.Ok?
  {
    EmbedAll(env.provider, 0, Chunked(p.chunking, env.extraction.value).value, p.batchSize, p.model)
  }

  /** The outcome of an attempt, given what embedding the extracted text results in. */
  function Judge(rowError: Option<string>, env: Environment,
      embedded: Result<seq<EmbeddedChunk>, EmbeddingError>): Verdict
  {
    if rowError.Some? then Fail(rowError.value)
    else if env.read.Unreadable? then Fail(env.read.message)
    else if env.read.ReadFailed? then RetryOrFail(env.read.message, env.read.retryable)
    else if env.extraction.Err? then Fail(env.extraction.error)
    else if embedded.Err? then RetryOrFail(embedded.error.message, embedded.error.retryable)
    else if env.store.StoreFailed? then RetryOrFail(env.store.message, env.store.retryable)
    else Store(embedded.value)
  }

  ghost function Process(p: Pipeline, rowError: Option<string>, env: Environment): Verdict
    requires ValidPipeline(p)
  {
    Judge(rowError, env, if env.extraction.Ok? then EmbeddingOf(p, env).result else Ok([]))
  }

  /** The protocol with this pipeline as the work of its attempts. */
  ghost function SettingsOf(p: Pipeline): Settings
    requires ValidPipeline(p)
  {
    Settings((rowError, env) => Process(p, rowError, env), p.exhaustionHandled)
  }

  lemma RenderedAreNumbered(cfg: Config, groups: seq<seq<ParagraphUnit>>)
    ensures forall i :: 0 <= i < |groups| ==> Render(cfg, groups)[i].chunkIndex == i
  {
    forall i | 0 <= i < |groups|
      ensures Render(cfg, groups)[i].chunkIndex == i
    {
      RenderAt(cfg, groups, i);
    }
  }

  lemma EmbeddingKeepsIndices(provider: Provider, chunks: seq<ContentChunk>, batchSize: nat, model: string)
    requires batchSize >= 1 && EmbedAll(provider, 0, chunks, batchSize, model).result.Ok?
    requires forall i :: 0 <= i < |chunks| ==> chunks[i].chunkIndex == i
    ensures Contiguous(EmbedAll(provider, 0, chunks, batchSize, model).result.value)
  {
    var list := EmbedAll(provider, 0, chunks, batchSize, model).result.value;
    SuccessLength(provider, 0, chunks, batchSize, model);
    forall i | 0 <= i < |list|
      ensures list[i].chunkIndex == i
    {
      SuccessMapsEveryChunk(provider, 0, chunks, batchSize, model, i);
    }
  }

  lemma EmbeddingIsContiguous(p: Pipeline, env: Environment)
    requires ValidPipeline(p) && env.extraction.Ok? && EmbeddingOf(p, env).result.Ok?
    ensures Contiguous(EmbeddingOf(p, env).result.value)
  {
    var cfg := p.chunking;
    var groups := Pack(FitsIn(cfg), [], Expand(cfg, UnitsOf(cfg, Paragraphs(cfg, env.extraction.value))));
    RenderedAreNumbered(cfg, groups);
    EmbeddingKeepsIndices(env.provider, Render(cfg, groups), p.batchSize, p.model);
  }

  lemma StoredIsJudged(rowError: Option<string>, env: Environment, embedded: Result<seq<EmbeddedChunk>, EmbeddingError>)
    requires Judge(rowError, env, embedded).Store?
    ensures env.extraction.Ok? && embedded == Ok(Judge(rowError, env, embedded).chunks)
  {
  }

  /** The chunks that an attempt stores carry their positions as indices. */
  lemma StoredAreContiguous(p: Pipeline, rowError: Option<string>, env: Environment)
    requires ValidPipeline(p) && Process(p, rowError, env).Store?
    ensures Contiguous(Process(p, rowError, env).chunks)
  {
    var embedded := if env.extraction.Ok? then EmbeddingOf(p, env).result else Ok([]);
    StoredIsJudged(rowError, env, embedded);
    EmbeddingIsContiguous(p, env);
  }

  /** The pipeline keeps what the protocol asks of the work, so every result about runs holds for it. */
  lemma PipelineIsValid(p: Pipeline)
    requires ValidPipeline(p)
    ensures ValidSettings(SettingsOf(p))
  {
    var st := SettingsOf(p);
    forall rowError, env | st.work(rowError, env).Store?
      ensures Contiguous(st.work(rowError, env).chunks)
    {
      StoredAreContiguous(p, rowError, env);
    }
  }

  // ----- which attempts are retried, which fail, and which succeed

  /** The chunks to embed. */
  ghost function ChunksToEmbed(p: Pipeline, env: Environment): seq<ContentChunk>
    requires ValidPipeline(p) && env.extraction.Ok?
  {
    Chunked(p.chunking, env.extraction.value).value
  }

  /** The document's row is sound, its file was read, and text was extracted. */
  ghost predicate Extracted(rowError: Option<string>, env: Environment) {
    rowError.None? && env.read.Content? && env.extraction.Ok?
  }

  ghost function TextsSentLast(p: Pipeline, env: Environment): seq<string>
    requires ValidPipeline(p) && env.extraction.Ok?
  {
    LastTexts(ChunksToEmbed(p, env), p.batchSize, EmbeddingOf(p, env))
  }

  ghost function RepliedLast(p: Pipeline, env: Environment): Option<Reply>
    requires ValidPipeline(p) && env.extraction.Ok?
  {
    LastReply(env.provider, ChunksToEmbed(p, env), p.batchSize, EmbeddingOf(p, env))
  }

  ghost predicate AllEmbedded(p: Pipeline, rowError: Option<string>, env: Environment)
    requires ValidPipeline(p)
  {
    Extracted(rowError, env) && EndsWell(RepliedLast(p, env), TextsSentLast(p, env))
  }

  /** A failure that may pass: in reading, in embedding, or in storing what was embedded. */
  ghost predicate Transient(p: Pipeline, rowError: Option<string>, env: Environment, message: string)
    requires ValidPipeline(p)
  {
    || (rowError.None? && env.read == ReadFailed(message, true))
    || (Extracted(rowError, env) && EndsRaised(RepliedLast(p, env), message, true))
    || (AllEmbedded(p, rowError, env) && env.store == StoreFailed(message, true))
  }

  /** A failure that will not pass. */
  ghost predicate Permanent(p: Pipeline, rowError: Option<string>, env: Environment, message: string)
    requires ValidPipeline(p)
  {
    || rowError == Some(message)
    || (rowError.None? && (env.read == Unreadable(message) || env.read == ReadFailed(message, false)))
    || (rowError.None? && env.read.Content? && env.extraction == Err(message))
    || (Extracted(rowError, env) && EndsRaised(RepliedLast(p, env), message, false))
    || (Extracted(rowError, env) && EndsShort(RepliedLast(p, env), TextsSentLast(p, env), message))
    || (AllEmbedded(p, rowError, env) && env.store == StoreFailed(message, false))
  }

  ghost predicate Succeeds(p: Pipeline, rowError: Option<string>, env: Environment)
    requires ValidPipeline(p)
  {
    AllEmbedded(p, rowError, env) && env.store.Stored?
  }

  /** The given chunks are the document's chunks, each with the vector of its place in its batch. */
  ghost predicate EmbedsDocument(p: Pipeline, env: Environment, list: seq<EmbeddedChunk>)
    requires ValidPipeline(p) && env.extraction.Ok?
  {
    EmbedsEvery(env.provider, ChunksToEmbed(p, env), p.batchSize, EmbeddingOf(p, env).calls, list)
  }

  /**
   An attempt ends in a retry exactly for the transient failures, in a failure exactly for the
   permanent ones, each with the message of its cause, and it stores exactly if every stage succeeds.
   */
  lemma VerdictExactly(p: Pipeline, rowError: Option<string>, env: Environment, message: string)
    requires ValidPipeline(p)
    ensures Process(p, rowError, env) == Retry(message) <==> Transient(p, rowError, env, message)
    ensures Process(p, rowError, env) == Fail(message) <==> Permanent(p, rowError, env, message)
    ensures Process(p, rowError, env).Store? <==> Succeeds(p, rowError, env)
    ensures Process(p, rowError, env).Store? ==> EmbedsDocument(p, env, Process(p, rowError, env).chunks)
  {
    if Extracted(rowError, env) {
      EmbeddingIsExact(p, env, message, true);
      EmbeddingIsExact(p, env, message, false);
      JudgedByEmbedding(rowError, env, EmbeddingOf(p, env).result, message);
    }
  }

  lemma JudgedByEmbedding(rowError: Option<string>, env: Environment,
      embedded: Result<seq<EmbeddedChunk>, EmbeddingError>, message: string)
    requires Extracted(rowError, env)
    ensures var verdict := Judge(rowError, env, embedded);
      && (verdict == Retry(message) <==>
          embedded == Err(EmbeddingError(message, true)) || (embedded.Ok? && env.store == StoreFailed(message, true)))
      && (verdict == Fail(message) <==>
          embedded == Err(EmbeddingError(message, false)) || (embedded.Ok? && env.store == StoreFailed(message, false)))
      && (verdict.Store? <==> embedded.Ok? && env.store.Stored?)
      && (verdict.Store? ==> embedded == Ok(verdict.chunks))
  {
  }

  lemma EmbeddingIsExact(p: Pipeline, env: Environment, message: string, retryable: bool)
    requires ValidPipeline(p) && env.extraction.Ok?
    ensures
      var r, last, texts := EmbeddingOf(p, env).result, RepliedLast(p, env), TextsSentLast(p, env);
      && (r.Ok? <==> EndsWell(last, texts))
      && (r == Err(EmbeddingError(message, retryable)) <==>
          EndsRaised(last, message, retryable) || (!retryable && EndsShort(last, texts, message)))
      && (r.Ok? ==> EmbedsDocument(p, env, r.value))
  {
    var chunks := ChunksToEmbed(p, env);
    ResultExactly(env.provider, chunks, p.batchSize, p.model, message, retryable);
    if EmbeddingOf(p, env).result.Ok? {
      SuccessEmbedsEvery(env.provider, chunks, p.batchSize, p.model);
    }
  }

  // ----- and what they leave behind

  /** The rows of the attempt's document and job have these statuses now; no other row has changed. */
  ghost predicate LeavesRows(s: State, s': State, delivery: Delivery, document: DocumentStatus, job: JobStatus,
      error: Option<string>)
    requires Accepts(s, delivery)
  {
    var d, j := delivery.document, delivery.job;
    && s'.documents == s.documents[d := s.documents[d].(status := document)]
    && s'.jobs == s.jobs[j := s.jobs[j].(status := job, attempts := s.jobs[j].attempts + 1, error := error)]
  }

  ghost predicate LeavesFailure(s: State, s': State, delivery: Delivery, message: string)
    requires Accepts(s, delivery)
  {
    LeavesRows(s, s', delivery, Failed, JobFailed, Some(message)) && s'.chunks == s.chunks && s'.sent == s.sent
  }

  /** Document and job stay in processing; `sent` is what the queue holds now. */
  ghost predicate LeavesProcessing(s: State, s': State, delivery: Delivery, sent: set<Delivery>)
    requires Accepts(s, delivery)
  {
    && LeavesRows(s, s', delivery, Processing, Running, s.jobs[delivery.job].error)
    && s'.chunks == s.chunks && s'.sent == sent
  }

  ghost predicate LeavesIndexed(s: State, s': State, delivery: Delivery)
    requires Accepts(s, delivery)
  {
    var d := delivery.document;
    && LeavesRows(s, s', delivery, Indexed, Completed, s.jobs[delivery.job].error)
    && d in s'.chunks && s'.chunks == s.chunks[d := s'.chunks[d]] && s'.sent == s.sent
  }

  /** What an accepted attempt that runs to its end leaves behind, cause by cause. */
  lemma AttemptOutcome(p: Pipeline, s: State, delivery: Delivery, env: Environment, message: string)
    requires ValidPipeline(p) && Accepts(s, delivery)
    ensures
      var rowError := s.documents[delivery.document].rowError;
      var s' := Next(SettingsOf(p), s, Attempt(delivery, env, 5));
      && (Succeeds(p, rowError, env) ==>
          LeavesIndexed(s, s', delivery) && EmbedsDocument(p, env, s'.chunks[delivery.document]))
      && (Transient(p, rowError, env, message) ==>
          if delivery.retries < INGESTION_MAX_RETRIES then
            LeavesProcessing(s, s', delivery, s.sent + {delivery.(retries := delivery.retries + 1)})
          else if p.exhaustionHandled then LeavesFailure(s, s', delivery, message)
          else LeavesProcessing(s, s', delivery, s.sent))
      && (Permanent(p, rowError, env, message) ==> LeavesFailure(s, s', delivery, message))
      && delivery.document in s'.documents
      && (s'.documents[delivery.document].status == Indexed <==> Succeeds(p, rowError, env))
  {
    var rowError := s.documents[delivery.document].rowError;
    VerdictExactly(p, rowError, env, message);
    VerdictOutcome(p.exhaustionHandled, s, delivery, Process(p, rowError, env));
  }

  lemma VerdictOutcome(exhaustionHandled: bool, s: State, delivery: Delivery, verdict: Verdict)
    requires Accepts(s, delivery)
    ensures var s' := At(VerdictTrace(exhaustionHandled, s, delivery, verdict), 5);
      && (verdict.Store? ==> LeavesIndexed(s, s', delivery) && s'.chunks[delivery.document] == verdict.chunks)
      && (verdict.Retry? ==>
          if delivery.retries < INGESTION_MAX_RETRIES then
            LeavesProcessing(s, s', delivery, s.sent + {delivery.(retries := delivery.retries + 1)})
          else if exhaustionHandled then LeavesFailure(s, s', delivery, verdict.message)
          else LeavesProcessing(s, s', delivery, s.sent))
      && (verdict.Fail? ==> LeavesFailure(s, s', delivery, verdict.message))
      && delivery.document in s'.documents
      && (s'.documents[delivery.document].status == Indexed <==> verdict.Store?)
  {
  }
}
