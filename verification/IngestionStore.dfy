/**
 The tables and the queue as the program updates them: each operation assigns rows and commits
 step by step.  `upto` is the number of commits after which the process running the operation
 dies; every method ends in the state the protocol gives for that step.
 */
module IngestionStore {
  import opened Wrappers
  import opened Chunker
  import opened Embeddings
  import opened Ingestion
  import opened IngestionWork

  class Store {
    const pipeline: Pipeline
    var documents: map<Id, Document>
    var jobs: map<Id, Job>
    var chunks: map<Id, seq<EmbeddedChunk>>
    var sent: set<Delivery>
    var nextId: Id
    ghost var produced: map<Id, seq<EmbeddedChunk>>

    ghost function Snapshot(): State
      reads this
    {
      State(documents, jobs, chunks, sent, nextId, produced)
    }

    constructor (pipeline: Pipeline)
      ensures this.pipeline == pipeline && Snapshot() == State(map[], map[], map[], {}, 0, map[])
    {
      this.pipeline := pipeline;
      documents, jobs, chunks, sent, nextId := map[], map[], map[], {}, 0;
      produced := map[];
    }

    // ----- repositories, one commit each

    method UpdateStatus(d: Id, status: DocumentStatus)
      requires d in documents
      modifies this`documents
      ensures Snapshot() == SetStatus(old(Snapshot()), d, status)
    {
      documents := documents[d := documents[d].(status := status)];
    }

    method UpdateJob(j: Id, job: Job)
      modifies this`jobs
      ensures Snapshot() == SetJob(old(Snapshot()), j, job)
    {
      jobs := jobs[j := job];
    }

    method CreateJob(w: Id, d: Id) returns (j: Id)
      modifies this`jobs, this`nextId
      ensures j == old(nextId) && Snapshot() == AddJob(old(Snapshot()), w, d)
    {
      j := nextId;
      jobs, nextId := jobs[nextId := Job(w, d, Pending, 0, None)], nextId + 1;
    }

    method Enqueue(delivery: Delivery)
      modifies this`sent
      ensures Snapshot() == Send(old(Snapshot()), delivery)
    {
      sent := sent + {delivery};
    }

    method DeleteChunksForDocument(d: Id)
      modifies this`chunks
      ensures Snapshot() == ClearChunks(old(Snapshot()), d)
    {
      chunks := chunks - {d};
    }

    method ReplaceChunksForDocument(d: Id, ghost j: Id, list: seq<EmbeddedChunk>)
      modifies this`chunks, this`produced
      ensures Snapshot() == StoreChunks(old(Snapshot()), d, j, list)
    {
      chunks := chunks[d := list];
      produced := produced[j := list];
    }

    // ----- requests

    /** Creates a document with its first job and sends the message for it. */
    method Upload(w: Id, rowError: Option<string>, upto: nat)
      requires ValidPipeline(pipeline)
      modifies this
      ensures Snapshot() == Next(SettingsOf(pipeline), old(Snapshot()), Step.Upload(w, rowError, upto))
    {
      if upto == 0 { return; }
      var d := nextId;
      documents, nextId := documents[d := Document(w, Uploaded, rowError)], nextId + 1;
      if upto == 1 { return; }
      var j := CreateJob(w, d);
      if upto == 2 { return; }
      Enqueue(Delivery(j, w, d, 0));
    }

    /** Drops the chunks of a document and starts over with a new job, unless one is in progress. */
    method Reindex(w: Id, d: Id, upto: nat)
      requires ValidPipeline(pipeline)
      modifies this
      ensures Snapshot() == Next(SettingsOf(pipeline), old(Snapshot()), Step.Reindex(w, d, upto))
    {
      if d !in documents || documents[d].workspace != w { return; }
      if InProgress(jobs, w, d) { return; }
      if upto == 0 { return; }
      DeleteChunksForDocument(d);
      if upto == 1 { return; }
      UpdateStatus(d, Processing);
      if upto == 2 { return; }
      var j := CreateJob(w, d);
      if upto == 3 { return; }
      Enqueue(Delivery(j, w, d, 0));
    }

    /** Deletes chunks, jobs and the document, in this order. */
    method Delete(w: Id, d: Id, upto: nat)
      requires ValidPipeline(pipeline)
      modifies this
      ensures Snapshot() == Next(SettingsOf(pipeline), old(Snapshot()), Step.Delete(w, d, upto))
    {
      if d !in documents || documents[d].workspace != w { return; }
      if upto == 0 { return; }
      DeleteChunksForDocument(d);
      if upto == 1 { return; }
      jobs := map j | j in jobs && !(jobs[j].document == d && jobs[j].workspace == w) :: jobs[j];
      if upto == 2 { return; }
      documents := documents - {d};
    }

    // ----- the worker

    method FailIngestion(d: Id, j: Id, message: string)
      requires d in documents && j in jobs
      modifies this`documents, this`jobs
      ensures Snapshot() == FailBoth(old(Snapshot()), d, j, message)
    {
      jobs := jobs[j := jobs[j].(status := JobFailed, error := Some(message))];
      documents := documents[d := documents[d].(status := Failed)];
    }

    /** Fails job and document from a fresh session, unless either is gone or the job was completed meanwhile. */
    method FailIngestionByIds(delivery: Delivery, message: string)
      modifies this`documents, this`jobs
      ensures var s := old(Snapshot());
        var j, w, d := delivery.job, delivery.workspace, delivery.document;
        var found := j in s.jobs && s.jobs[j].workspace == w && Found(s, w, d);
        Snapshot() == if found && s.jobs[j].status != Completed then FailBoth(s, d, j, message) else s
    {
      if delivery.job !in jobs || jobs[delivery.job].workspace != delivery.workspace { return; }
      if delivery.document !in documents || documents[delivery.document].workspace != delivery.workspace { return; }
      if jobs[delivery.job].status == Completed { return; }
      FailIngestion(delivery.document, delivery.job, message);
    }

    method RequestRetryOrFail(delivery: Delivery, message: string)
      requires Accepts(Snapshot(), delivery)
      modifies this`documents, this`jobs, this`sent
      ensures var s := old(Snapshot());
        Snapshot() ==
          if delivery.retries < INGESTION_MAX_RETRIES then Send(s, delivery.(retries := delivery.retries + 1))
          else if pipeline.exhaustionHandled then FailBoth(s, delivery.document, delivery.job, message)
          else s
    {
      if delivery.retries < INGESTION_MAX_RETRIES {
        Enqueue(delivery.(retries := delivery.retries + 1));
      } else if pipeline.exhaustionHandled {
        FailIngestionByIds(delivery, message);
      }
    }

    /** Reading, extracting, chunking, embedding and storing, up to the outcome that decides the attempt. */
    method Work(rowError: Option<string>, env: Environment) returns (verdict: Verdict)
      requires ValidPipeline(pipeline)
      ensures verdict == Process(pipeline, rowError, env)
    {
      if rowError.Some? {
        return Fail(rowError.value);
      }
      match env.read {
        case Unreadable(message) => return Fail(message);
        case ReadFailed(message, retryable) => return RetryOrFail(message, retryable);
        case Content =>
      }
      if env.extraction.Err? {
        return Fail(env.extraction.error);
      }
      var chunked := ChunkExtractionResult(pipeline.chunking, env.extraction.value);
      var embedded := EmbedContentChunks(env.provider, chunked.value, pipeline.batchSize, pipeline.model);
      match embedded.result {
        case Err(e) => return RetryOrFail(e.message, e.retryable);
        case Ok(list) =>
          if env.store.StoreFailed? {
            return RetryOrFail(env.store.message, env.store.retryable);
          }
          return Store(list);
      }
    }

    /** One delivery to the worker: guards, running, work, and the commits its outcome asks for. */
    method ProcessIngestionJob(delivery: Delivery, env: Environment, upto: nat)
      requires ValidPipeline(pipeline)
      modifies this
      ensures Snapshot() == Next(SettingsOf(pipeline), old(Snapshot()), Attempt(delivery, env, upto))
    {
      var j, d := delivery.job, delivery.document;
      if j !in jobs || jobs[j].workspace != delivery.workspace { return; }
      if jobs[j].document != d { return; }
      if jobs[j].status == Completed || jobs[j].status == JobFailed { return; }
      if d !in documents || documents[d].workspace != delivery.workspace { return; }
      ghost var s := Snapshot();
      ghost var verdict := RunAttempt(delivery, env, upto);
      StateAfterIsTrace(pipeline.exhaustionHandled, s, delivery, Process(pipeline, s.documents[d].rowError, env), upto);
    }

    /** An attempt that passed the guards; `verdict` is what its work ended with, if it got that far. */
    method RunAttempt(delivery: Delivery, env: Environment, upto: nat) returns (ghost verdict: Verdict)
      requires ValidPipeline(pipeline) && Accepts(Snapshot(), delivery)
      modifies this
      ensures Snapshot() == StateAfter(pipeline.exhaustionHandled, old(Snapshot()), delivery, verdict, upto)
      ensures upto >= 3 ==> verdict == Process(pipeline, old(documents[delivery.document].rowError), env)
    {
      verdict := Fail("");
      var rowError := documents[delivery.document].rowError;
      var alive := BeginAttempt(delivery, upto);
      if !alive { return; }
      verdict := WorkAndCommit(delivery, rowError, env, upto - 2);
    }

    /** The first two commits: the job, then the document. */
    method BeginAttempt(delivery: Delivery, upto: nat) returns (alive: bool)
      requires Accepts(Snapshot(), delivery)
      modifies this`jobs, this`documents
      ensures alive <==> upto >= 3
      ensures var s := old(Snapshot());
        var s1 := Begin(s, delivery);
        Snapshot() == (if upto == 0 then s else if upto == 1 then s1 else SetStatus(s1, delivery.document, Processing))
        && (alive ==> Accepts(Snapshot(), delivery))
    {
      var j, d := delivery.job, delivery.document;
      if upto == 0 { return false; }
      UpdateJob(j, jobs[j].(status := Running, attempts := jobs[j].attempts + 1));
      if upto == 1 { return false; }
      UpdateStatus(d, Processing);
      return upto != 2;
    }

    /** The work of an attempt and the commits its outcome asks for; the process dies after `left` of them. */
    method WorkAndCommit(delivery: Delivery, rowError: Option<string>, env: Environment, left: nat)
      returns (ghost verdict: Verdict)
      requires ValidPipeline(pipeline) && Accepts(Snapshot(), delivery) && left >= 1
      modifies this
      ensures verdict == Process(pipeline, rowError, env)
      ensures Snapshot() == AfterVerdict(pipeline.exhaustionHandled, old(Snapshot()), delivery, verdict, left)
    {
      var outcome := Work(rowError, env);
      verdict := outcome;
      CommitVerdict(delivery, outcome, left);
    }

    /** The commits after the work; the process dies after `left` of them. */
    method CommitVerdict(delivery: Delivery, verdict: Verdict, left: nat)
      requires Accepts(Snapshot(), delivery) && left >= 1
      modifies this
      ensures Snapshot() == AfterVerdict(pipeline.exhaustionHandled, old(Snapshot()), delivery, verdict, left)
    {
      var j, d := delivery.job, delivery.document;
      match verdict {
        case Fail(message) => FailIngestion(d, j, message);
        case Retry(message) => RequestRetryOrFail(delivery, message);
        case Store(list) =>
          ReplaceChunksForDocument(d, j, list);
          if left == 1 { return; }
          UpdateJob(j, jobs[j].(status := Completed));
          if left == 2 { return; }
          UpdateStatus(d, Indexed);
      }
    }
  }

  /** The state an attempt is in after `upto` of its commits. */
  ghost function StateAfter(exhaustionHandled: bool, s: State, delivery: Delivery, verdict: Verdict, upto: nat): State
    requires Accepts(s, delivery)
  {
    var s1 := Begin(s, delivery);
    var s2 := SetStatus(s1, delivery.document, Processing);
    if upto == 0 then s else if upto == 1 then s1 else if upto == 2 then s2
    else AfterVerdict(exhaustionHandled, s2, delivery, verdict, upto - 2)
  }

  lemma StateAfterIsTrace(exhaustionHandled: bool, s: State, delivery: Delivery, verdict: Verdict, upto: nat)
    requires Accepts(s, delivery)
    ensures StateAfter(exhaustionHandled, s, delivery, verdict, upto)
      == At(VerdictTrace(exhaustionHandled, s, delivery, verdict), upto)
  {
  }

  /** What `left` commits after the first two of an attempt lead to. */
  ghost function AfterVerdict(exhaustionHandled: bool, s: State, delivery: Delivery, verdict: Verdict, left: nat): State
    requires Accepts(s, delivery)
  {
    var j, d := delivery.job, delivery.document;
    match verdict
    case Fail(message) => FailBoth(s, d, j, message)
    case Retry(message) =>
      if delivery.retries < INGESTION_MAX_RETRIES then Send(s, delivery.(retries := delivery.retries + 1))
      else if exhaustionHandled then FailBoth(s, d, j, message)
      else s
    case Store(list) =>
      var s3 := StoreChunks(s, d, j, list);
      var s4 := SetJob(s3, j, s3.jobs[j].(status := Completed));
      if left == 1 then s3 else if left == 2 then s4 else SetStatus(s4, d, Indexed)
  }
}
