# A verified model of the Citepath core

Citepath stores workspace documents, turns them into embedded chunks through an asynchronous
worker, answers questions from those chunks and runs bounded agent investigations over them.
This project models the parts of it that carry protocols, algorithms or invariants, and proves
what they promise.

| file | what it models |
|---|---|
| `Ingestion.dfy` | The ingestion protocol as commits: what upload, re-index, deletion and worker attempts write, in which order; messages that may be delivered again at any time; a process that may die after any commit. |
| `IngestionWork.dfy` | The work inside one attempt (read, extract, chunk, embed, store): which attempts are retried, fail or succeed, what they leave behind, and that the work meets what the protocol asks of it. |
| `IngestionInvariant.dfy` | The invariant, commit by commit and step by step. |
| `IngestionMask.dfy` | Documents that a dead or unfinished request has left without what they serve. |
| `IngestionRuns.dfy` | Isolation of documents, terminal jobs, attempt counting, crash and redelivery, whole requests, retries, and the overlap that the re-index guard does not see. |
| `IngestionInterleaving.dfy` | Operations on different documents whose commits interleave freely, one commit or death at a time. |
| `IngestionReachable.dfy` | An operation alone as a sequence of such moves, and what every run of operations reaches. |
| `IngestionMoves.dfy` | Terminal jobs, redelivery, attempt counts, documents at rest and deletion over interleaved runs. |
| `IngestionStore.dfy` | The same operations as a class that assigns rows and commits one by one, refining the protocol. |
| `GreedyPacking.dfy` | Greedy packing for any "does it fit" test, shared by chunking and batching. |
| `Chunker.dfy` | Paragraph units, hard splitting, the packing loop with overlap, chunk contents and metadata. |
| `ChunkContents.dfy` | What stands in a chunk, and that every piece of every paragraph stands in one. |
| `Embeddings.dfy` | Batched embedding with one immediate retry and its usage events. |
| `TokenBudget.dfy` | Chunk selection, greedy batching, the batch cap and the summary of the agent tools. |
| `RateLimit.dfy` | The sliding-window limiter over real time. |
| `Slug.dfy` | Slug normalisation, derivation, validation, suffixes and the search for a free slug. |
| `Membership.dfy` | Workspace membership and its last-owner rule. |
| `AgentRun.dfy` | The plan-and-call loop, stored tool calls and citations. |
| `Retrieval.dfy` | Ranking, threshold, the document cache and the query-embedding cache. |
| `Markdown.dfy`, `MarkdownNesting.dfy`, `MarkdownBlocks.dfy`, `MarkdownText.dfy` | Escaping, inline spans and the order of their tags, the block loop of the answer renderer, and that rendering keeps the text. |
| `Arithmetic.dfy`, `Numerals.dfy`, `Sequences.dfy`, `Strings.dfy`, `Wrappers.dfy` | Minimum and maximum, decimal numerals, facts about sequences, stripping and joining, Option and Result. |

## How the ingestion protocol is modelled

A `State` is what the database and the broker hold between commits. An operation is the sequence
of states that its commits lead through; a step of the system takes one operation up to some
commit, so a crash after any commit is a step like any other. Messages are never removed from
the broker, which covers late acknowledgement, redelivery and duplicates. What happens between
the commits of an attempt is one function of the document row and an `Environment` (what reading,
extraction, the embedding provider and storing the chunks return); the protocol results hold for
any such function whose chunks are numbered 0, 1, 2, ..., and `IngestionWork` proves that the
program's pipeline is one, and says for every cause how its attempt ends (`VerdictExactly`,
`AttemptOutcome`). `produced` is a record kept by the model alone: the chunks that each
job's last storing attempt embedded.

In `Run` an operation is one step, so no two operations interleave at all. `IngestionInterleaving`
drops that: there one operation may be under way on each document, and between any two of its
commits those of operations on other documents happen in any order. An operation carried out
alone is a step of the protocol (`SoloIsStep`), so what holds of interleaved runs holds of `Run`.

Runs are restricted by nothing but that messages come from the queue: any process may die after
any commit, on any document. A request that dies in a gap is put on record in a set `torn`, from
which the document is taken when a later request gets past that gap. The invariant holds of every
state with the torn documents, and those a request is just clearing, hidden (`Mask`); and a
document marked indexed is served if and only if it is not torn (`ServedAtEveryMoment`,
`IndexedDocumentsAreServed`). Two operations on the same document do not overlap; when an overlap
would matter is proved as well (`GuardExactly`, `OverlapExactly`).

## Properties that hold only under a condition

The code was kept as it is. For each of these the exact condition was proved, except where the
entry says that a law is assumed.

- A request that dies between clearing chunks (or dropping jobs) and its next commit leaves an
  indexed document without what it serves. `StepKeepsInvariantExactly` says exactly which
  crashed requests do, `MoveKeepsInvariantExactly` says it under interleaving; no worker crash does.
  The damage stays with that document, and a later re-index heals it (`ReindexHeals`).
- A worker that dies between the commit of the job and the commit of the document leaves the
  document in `processing` with a completed job; redelivery does not repair it, and only a
  re-index or a deletion does (`CrashBeforeIndexedIsForever`, `RedeliveryRecoversExactly`).
- The guard of a re-index refuses it during a storing attempt exactly until the job is completed
  (`GuardExactly`), which is one commit too early. If a re-index comes in between, the last commit of
  the attempt is harmless exactly when the re-index had not begun, or had not yet added its job and
  nothing was embedded (`OverlapExactly`, `OverlappingReindexIsNotRefused`).
- A job is sure to become terminal after its retries exactly when giving up reaches the handler
  or some attempt ends otherwise (`RetriesEndExactly`). docs/implementation-notes/ING-007.md
  promises the handler; whether it is reached depends on which exception surfaces when the retry
  limit is hit, so it is the parameter `exhaustionHandled`.
- The text of the hard-split units is the text of the paragraphs exactly when no cut behind every
  chunk-size tokens tears a character apart (`NothingIsLost`, `HardSplitKeepsText`). Assumed of the
  tokenizer: decoding undoes encoding (`RoundTrips`), and a torn character decodes to a longer text
  (`TearingGrows`, which replacement characters give). The token slices always concatenate
  (`SlicesPartition`).
- `EveryChunkCost` bounds every chunk for a subadditive tokenizer. The bound in numbers
  (`EveryChunkBound`) and the one on the overlap (`OverlapIsShort`) also assume `SlicesShrink`: a
  decoded slice does not encode to more tokens than it had.
- The validation function alone also accepts a slug followed by one line feed, because `$`
  matches there (`ValidExactly`, `TrailingLineFeedAccepted`). The request schema strips it off
  first (app/modules/workspaces/schemas.py:23-31), so that no such slug reaches a workspace
  (`NormalizedValidExactly`, `ResolutionIsLegal`). Assumed of lowering: it puts no line feed at the
  end of a text.
- A free slug is found within n + 1 lookups, for every set of n slugs in use, exactly when the
  base does not have 127 or 128 characters and end in a hyphen and a decimal numeral of 2 or more
  (`LookupBoundExact`, `SelfSuffixExists`). n + 2 always suffice.
- The summary tool's `truncated` field ignores the batch cap; it is right exactly when the document
  passes the selection budget, reaches it before its last chunk, or needs at most three batches
  (`ReportedTruncationExact`). The note in the summary is there exactly when chunks were left out
  and some batch was answered with text; if none was, the fixed answer comes without a note
  (`SummarizeDocument`).
- With `max_requests` of zero or less the limiter raises instead of answering, and only then
  (`RaisesIffNothingAllowed`). The limiter reads the clock before it takes the lock. With checks in
  clock order no window holds more than the limit (`WindowCap`); in any order that is certain
  exactly when the limit is one or the window empty (`CapNeedsClockOrderExactly`).
- Markdown rendering ends exactly when no line is a heading mark without heading text
  (`TerminatesExactly`); a line of `#` and any one white-space character between other lines is
  one that does not end (`EndlessInputs`, `EndlessText`).
- The tags of formatted text always come in pairs (`TagsComeInPairs`). They nest exactly when no bold
  span holds a part of a code span and no italic span a part of a code or bold span
  (`NestsExactly`); italic marks around one end of a code span make them cross (`CrossingTags`).
- An answer other than success leaves the membership table unchanged, except exactly for a
  permitted change to a different role of a member whose user row is missing: it is committed and
  then answered with an error (`RefusedChangesExactly`, `RefusedButChanged`). The foreign key on
  `workspace_members.user_id` (app/modules/workspaces/models.py:60-64) keeps that from arising, and
  the invariant says so (`RefusedMeansUnchanged`).

## Where documentation and code differ

The model follows the code.

- docs/10-ingestion-pipeline.md:23-24 marks the document indexed before the job is completed;
  app/modules/ingestion/tasks.py:219-233 completes the job first. The proofs rest on the order of the code.
- app/infrastructure/rate_limit.py:19 calls the limiter fixed-window; it is a sliding window.

## Model

| member | source | states |
|---|---|---|
| Ingestion.LocalChange | app/modules/ingestion/tasks.py:65-86 | A commit that concerns one document keeps the whole invariant if it keeps it for that document |
| IngestionInvariant.ClearChunksExact | app/modules/ingestion/repository.py:58-70 | Clearing the chunks of a document keeps the invariant if and only if the document is not indexed or had no chunks |
| IngestionInvariant.DropJobsExact | app/modules/ingestion/job_repository.py:50-62 | Dropping a document's jobs keeps the invariant if and only if it is not indexed, and leaves all other documents in order |
| IngestionInvariant.UploadKeeps | app/modules/documents/service.py:62-114 | Every state an upload passes through, crashed or not, satisfies the invariant |
| IngestionInvariant.ReindexKeeps | app/modules/documents/service.py:239-270 | Every state of a re-index but the one after clearing satisfies the invariant, and that one does exactly when nothing served was lost |
| IngestionInvariant.DeleteKeeps | app/modules/documents/service.py:192-219 | A deletion ends in the invariant; in between it holds exactly when the document was not indexed (or had no chunks yet to lose) |
| IngestionInvariant.CompleteKeeps | app/modules/ingestion/tasks.py:206-233 | Storing chunks, completing the job, indexing the document: in this order each commit keeps the invariant |
| IngestionInvariant.VerdictKeeps | app/modules/ingestion/tasks.py:311-554 | Every state of an accepted attempt satisfies the invariant, however its work ends |
| IngestionInvariant.AttemptKeeps | app/modules/ingestion/tasks.py:249-554 | Every state of any delivery satisfies the invariant |
| IngestionInvariant.StepKeepsInvariantExactly | app/modules/documents/service.py:184-274 | One step with a crash after any commit keeps the invariant if and only if it is not a request dying in a gap |
| IngestionReachable.RunKeepsInvariant | app/modules/ingestion/tasks.py:249-554 | After every run of whole or crashed operations, with any process dying after any commit, the invariant holds with the torn documents hidden, and each of these has lost what it served |
| IngestionReachable.IndexedDocumentsAreServed | app/modules/ingestion/tasks.py:206-233 | After every such run: an active job is the only one of its document and the newest; and an indexed document is served by its completed newest job, with exactly the chunks that job embedded, numbered from 0, if and only if it is not torn |
| IngestionReachable.ReindexHeals | app/modules/documents/service.py:239-256 | A re-index of a torn document is not refused and heals it with its second commit |
| IngestionInterleaving.MoveKeepsInvariantExactly | app/modules/ingestion/tasks.py:206-233 | Every commit or death of one of many operations under way keeps the invariant; a death does so without tearing its document if and only if it is not that of a request in a gap |
| IngestionInterleaving.ServedAtEveryMoment | app/modules/documents/service.py:184-274 | However commits on different documents interleave and whatever dies, at every moment every document has at most one active job, and an indexed one that is not just being cleared is served by its completed newest job, chunk for chunk, if and only if it is not torn |
| IngestionInterleaving.NothingIsStuck | app/modules/ingestion/tasks.py:311-323 | An operation under way always finds the rows that its next commit writes |
| IngestionReachable.SoloIsStep | app/modules/documents/service.py:249-270 | The commits of an operation alone, up to its death, are the step of the protocol, and tear or heal what the step does |
| IngestionMoves.MoveIsLocal | app/modules/ingestion/tasks.py:266-309 | Under interleaving, a commit changes no document but its own |
| IngestionMoves.SettledThroughMoves | app/modules/ingestion/tasks.py:287-296 | Under interleaving, completed and failed are absorbing and a deleted job's id never names a job again |
| IngestionMoves.RedeliveryAmongMoves | app/modules/ingestion/tasks.py:266-309 | Under interleaving, a message for a terminal or deleted job makes no difference |
| IngestionMoves.AttemptCountThroughMoves | app/modules/ingestion/tasks.py:311-322 | Under interleaving, the attempt count is the number of attempts that entered processing |
| IngestionMoves.RestThroughMoves | app/modules/ingestion/tasks.py:266-309 | Under interleaving, a document without an active job and without an operation under way changes only when a re-index or deletion of it begins |
| IngestionMoves.DeletionThroughMoves | app/modules/documents/service.py:219 | Under interleaving, the last commit of a deletion is final |
| IngestionWork.PipelineIsValid | app/infrastructure/config.py:68-85 | The program's own pipeline meets what the protocol asks of the work, for every valid setting |
| IngestionWork.StoredAreContiguous | app/modules/ingestion/tasks.py:454-515 | The chunks an attempt stores carry their positions as indices |
| IngestionWork.VerdictExactly | app/modules/ingestion/tasks.py:333-540 | An attempt asks for a retry exactly if reading failed transiently, or the last provider call raised a transient error, or storing what was embedded did; it fails exactly for the other causes; each with the message of its cause; it stores, every chunk with its own vector, exactly if all stages succeed |
| IngestionWork.AttemptOutcome | app/modules/ingestion/tasks.py:206-554 | What a whole attempt leaves of rows, chunks and messages: indexed and completed exactly if all stages succeed, a retry below the limit for a transient failure, both rows failed with the message for a permanent one |
| IngestionRuns.StepIsIsolated | app/modules/ingestion/tasks.py:266-309 | No step changes a document that it does not concern, or one in another workspace |
| IngestionRuns.StepKeepsReferences | app/modules/documents/service.py:201-219 | Rows refer to existing rows of their workspace in every state, whatever dies |
| IngestionRuns.RedeliveryIsInvisible | app/modules/ingestion/tasks.py:266-309 | A message delivered again at any time after its job is terminal or gone makes no difference to the outcome of the run |
| IngestionRuns.SettledForever | app/modules/ingestion/tasks.py:287-296 | Completed and failed are absorbing over every run, and a deleted job's id never names a job again |
| IngestionRuns.StepCountsAttempts | app/modules/ingestion/tasks.py:312-317 | A step raises a job's attempt count by one exactly when it commits the job as processing |
| IngestionRuns.AttemptCountIsEntries | app/modules/ingestion/tasks.py:311-322 | Over any run the attempt count is the number of attempts that entered processing, crashed ones included |
| IngestionRuns.QuiescentRun | app/modules/ingestion/tasks.py:266-309 | A document without an active job is changed by no run that does not re-index or delete it, whatever dies elsewhere |
| IngestionRuns.CrashAfterJobCommit | app/modules/ingestion/tasks.py:219-233 | What a storing attempt leaves when it dies between its last two commits |
| IngestionRuns.CrashBeforeIndexedIsForever | app/modules/ingestion/tasks.py:219-233 | From there no run without a re-index or deletion of the document ever indexes it, although its chunks are stored, whatever dies elsewhere |
| IngestionRuns.RedeliveryRecoversExactly | app/infrastructure/celery_app.py:15 | A crashed storing attempt, delivered again, ends in an indexed document if and only if the crash was not in that gap |
| IngestionRuns.UploadThenAttempt | app/modules/documents/service.py:86-110 | An upload queues a message that the worker accepts, and one storing attempt on it leaves the document indexed with exactly the embedded chunks |
| IngestionRuns.UploadExactly | app/modules/documents/service.py:86-110 | An upload adds one document and one pending job without attempts and sends one message for the two, nothing else |
| IngestionRuns.InProgressExactly | app/modules/documents/service.py:242-247 | The guard, which looks at the newest job only, sees every active job |
| IngestionRuns.ReindexExactly | app/modules/documents/service.py:239-270 | A re-index changes something exactly if the document exists and has no active job, and then only what starts it over |
| IngestionRuns.DeleteExactly | app/modules/documents/service.py:184-219 | A deletion takes the document, its chunks and all its jobs, and nothing else; for a missing document it changes nothing |
| IngestionRuns.ReindexThenAttempt | app/modules/documents/service.py:239-270 | From any state, torn documents included, a re-index that is not refused queues such a message, and a storing attempt on it replaces all chunks |
| IngestionRuns.DeletionIsFinal | app/modules/documents/service.py:192-219 | After a whole deletion no run, whatever dies in it, brings the document, a job or a chunk of it back, whatever messages about it are still delivered |
| IngestionRuns.CountdownNeverShrinks | app/modules/ingestion/retry.py:70-73 | Delays start at 1 second, double, never shrink, and are 60 exactly from the sixth retry on |
| IngestionRuns.RetriesEndExactly | app/modules/ingestion/tasks.py:160-203 | Without crashes a job is terminal after at most 1 + INGESTION_MAX_RETRIES attempts if and only if one attempt does not ask for a retry or exhaustion is handled; never more attempts than that |
| IngestionRuns.GuardExactly | app/modules/documents/service.py:239-247 | After k commits of a storing attempt a re-index is refused if and only if k is at most 3 |
| IngestionRuns.OverlapExactly | app/modules/ingestion/tasks.py:219-233 | A re-index of u commits between the last two commits of an attempt: the last commit ends in the invariant if and only if u is 0, or u is at most 2 and nothing was embedded |
| IngestionRuns.OverlappingReindexIsNotRefused | app/modules/documents/service.py:239-247 | A whole re-index there is let through; the attempt's last commit then marks a document without chunks as indexed while its newest job is pending |
| IngestionStore.Store.Upload | app/modules/documents/service.py:86-110 | The rows and message written, commit by commit, are the protocol's upload step |
| IngestionStore.Store.Reindex | app/modules/documents/service.py:224-270 | Guard and commits are the protocol's re-index step |
| IngestionStore.Store.Delete | app/modules/documents/service.py:184-219 | Guard and commits are the protocol's deletion step |
| IngestionStore.Store.FailIngestionByIds | app/modules/ingestion/tasks.py:110-155 | The rows are failed exactly when both still exist in the workspace and the job is not completed |
| IngestionStore.Store.RequestRetryOrFail | app/modules/ingestion/tasks.py:160-203 | A retry is sent below the limit; at the limit the rows are failed if exhaustion is handled |
| IngestionStore.Store.Work | app/modules/ingestion/tasks.py:333-540 | Given what reading, extraction, the provider and storing return, chunking and embedding them ends in the outcome that the pipeline function gives; `IngestionWork.VerdictExactly` says which that is |
| IngestionStore.Store.ProcessIngestionJob | app/modules/ingestion/tasks.py:249-554 | One delivery, dying after any number of commits, ends in the protocol's state for that step |
| GreedyPacking.PackFlattens | app/modules/ingestion/chunker.py:264-303 | The groups concatenate to the input, in order |
| GreedyPacking.PackIsGreedy | app/modules/ingestion/chunker.py:271-300 | No group is empty, each grew within the limit, and none could have taken the next element |
| GreedyPacking.GreedyGroupsUnique | app/modules/ingestion/chunker.py:271-300 | Those conditions leave no choice: any grouping that satisfies them is the packer's |
| Chunker.ParagraphUnits | app/modules/ingestion/chunker.py:76-100 | Every paragraph in order, with the page of its segment and the last heading up to and including itself |
| Chunker.SlicesPartition | app/modules/ingestion/chunker.py:195-197 | The token slices concatenate to the tokens, none is empty or too long, all but the last are full |
| Chunker.HardSplitParagraph | app/modules/ingestion/chunker.py:184-205 | The units are the decoded slices of an over-long paragraph, or the paragraph itself |
| Chunker.HardSplitKeepsText | app/modules/ingestion/chunker.py:184-205 | For a tokenizer with `RoundTrips`, clean cuts make the slices spell out the paragraph; with `TearingGrows`, only they do |
| Chunker.EmitChunk | app/modules/ingestion/chunker.py:233-262 | Closes the current group as the next chunk and carries its tail, or does nothing when the group is empty |
| Chunker.AddUnit | app/modules/ingestion/chunker.py:270-300 | A unit joins the group exactly when the group is empty or stays within the size; otherwise the group is closed and the unit starts the next; the emit at line 299 finds nothing to emit |
| Chunker.ChunkExtractionResult | app/modules/ingestion/chunker.py:208-305 | The loop's chunks are the rendered greedy groups of all hard-split units, or the configuration error |
| Chunker.NothingIsLost | app/modules/ingestion/chunker.py:184-205 | The groups behind the chunks concatenate to the hard-split units; with `RoundTrips` and `TearingGrows` their texts are those of the paragraphs if and only if all cuts are clean |
| Chunker.RenderedChunks | app/modules/ingestion/chunker.py:233-303 | Index is position; content is the group with the overlap of the chunk before; the size is exceeded only by single-unit chunks; the next unit would have made any chunk too long |
| ChunkContents.ContentExactly | app/modules/ingestion/chunker.py:103-127 | Formatted content is the heading line, if the first heading is stamped, the overlap, if any, and the texts of all units in order, with a blank line between neighbours |
| ChunkContents.ChunkExactly | app/modules/ingestion/chunker.py:130-181 | That, for each chunk of a document, with the overlap being the text of the last tokens of the chunk before; its page is the first and its heading the last among its units |
| ChunkContents.UnitExactly | app/modules/ingestion/chunker.py:76-100 | Paragraph by paragraph, the unit has the text, the page of its segment if that is a number, and the last heading up to and including itself; there are no other units |
| ChunkContents.PieceExactly | app/modules/ingestion/chunker.py:184-205 | Piece m of a long paragraph is the text of its tokens from m times the size on; a piece keeps page and heading |
| ChunkContents.EveryPieceStands | app/modules/ingestion/chunker.py:208-305 | Every piece of every paragraph of every segment stands in the content of some chunk |
| Chunker.CarriesOverlap | app/modules/ingestion/chunker.py:103-127 | The overlap stands at the start of the content, or right behind the heading line |
| Chunker.OverlapIsShort | app/modules/ingestion/chunker.py:170-181 | For a tokenizer with `SlicesShrink` the carried tail has at most the configured number of tokens |
| Chunker.EveryChunkCost | app/modules/ingestion/chunker.py:264-303 | With a subadditive tokenizer a chunk stays within the size, or is one unit and costs no more than the unit, its overlap, its heading line and separators |
| Chunker.EveryChunkBound | app/modules/ingestion/chunker.py:264-303 | With a subadditive tokenizer and `SlicesShrink` no chunk exceeds size + overlap + heading line + separators |
| Embeddings.EmbedBatchWithRetry | app/modules/ingestion/embeddings.py:59-100 | At most two calls per batch; only a raised error is retried |
| Embeddings.EmbedContentChunks | app/modules/ingestion/embeddings.py:103-169 | The loop's chunks and events are those of embedding batch by batch |
| Embeddings.SuccessMapsEveryChunk | app/modules/ingestion/embeddings.py:144-169 | On success output i is input i with the vector and the model that the provider returned for place i mod b of batch i div b |
| Embeddings.SuccessLength | app/modules/ingestion/embeddings.py:121-169 | On success there are ceil(n / batch size) events, all SUCCESS, whose batch sizes add up to n |
| Embeddings.FailureLogsPrefix | app/modules/ingestion/embeddings.py:121-142 | On failure all full batches before are logged as SUCCESS, followed by exactly one FAILED event |
| Embeddings.LastCallDecides | app/modules/ingestion/embeddings.py:66-142 | Embedding succeeds exactly if the last call returned a vector for each text; otherwise the error is that of the batch logged last, made of that call: it raised after another raise, and the error is retryable exactly if it was, or it returned a wrong number of vectors |
| Embeddings.EventsExactly | app/modules/ingestion/embeddings.py:121-142 | Every batch looked at has its event: a success with the model and the tokens of a usable reply, or, last of a failure, a failure with the requested model |
| Embeddings.CallsGrow | app/modules/ingestion/embeddings.py:66-92 | The provider is called once or twice per logged batch |
| TokenBudget.CountTokens | app/modules/agents/token_budget.py:11-15 | A quarter of the length rounded up, zero only for empty text |
| TokenBudget.BatchChunksByTokenBudget | app/modules/agents/document_loader.py:140-164 | The loop's batches are the greedy split |
| TokenBudget.GreedyIsLegal | app/modules/agents/document_loader.py:140-164 | Greedy batches concatenate to the input, none is empty, each fits or is one chunk |
| TokenBudget.GreedyIsOptimal | app/modules/agents/document_loader.py:153-160 | No contiguous split that obeys the batch rule uses fewer batches |
| TokenBudget.GreedyStaysAhead | app/modules/agents/document_loader.py:153-160 | The same for every suffix of the input |
| TokenBudget.SelectChunksWithinBudget | app/modules/agents/document_loader.py:167-194 | The selected prefix is the shortest that meets the budget or cannot grow within it; the flag says whether anything was left out |
| TokenBudget.SelectionIsFirstBatch | app/modules/agents/document_loader.py:167-194 | Selection is the first greedy batch under the same budget, up to chunks without tokens behind an exact hit |
| TokenBudget.NextFitBound | app/modules/agents/document_loader.py:153-160 | 2k greedy batches hold more than k budgets of tokens |
| TokenBudget.SelectedInputBatches | app/modules/agents/tools/summarize_document.py:37-43 | An input selected under m budgets needs at most 2m - 1 batches |
| TokenBudget.SummarizeInput | app/modules/agents/tools/summarize_document.py:73-78 | The kept batches are a prefix of the document, and the budget flag says exactly whether they fail to cover it |
| TokenBudget.SummarizeDocument | app/modules/agents/tools/summarize_document.py:65-133 | The content is the fixed answer, the only partial summary or the merged ones, with the truncation note exactly when chunks were left out and some batch was answered with text; it fails exactly when a call does |
| TokenBudget.PartialsExactly | app/modules/agents/tools/summarize_document.py:79-114 | The partial summaries are all texts that answer a batch, in the order of the batches |
| TokenBudget.CapIsExact | app/modules/agents/tools/summarize_document.py:77-78 | Dropping batches always drops chunks |
| TokenBudget.ReportedTruncationExact | app/modules/agents/tools/summarize_document.py:61 | The reported field is right exactly when the document passes the selection budget, reaches it before its last chunk, or needs at most three batches |
| TokenBudget.UnreportedTruncation | app/modules/agents/tools/summarize_document.py:61 | A document whose batches the cap cuts while the field says that nothing was left out |
| RateLimit.InMemoryRateLimiter.Check | app/infrastructure/rate_limit.py:27-40 | The deque of the key is the replay of all its checks, and no other key is touched |
| RateLimit.InMemoryRateLimiter.CheckDeque | app/infrastructure/rate_limit.py:30-40 | Pruning from the left, then admitting, refusing or raising, is one decision on the deque |
| RateLimit.InMemoryRateLimiter.Reset | app/infrastructure/rate_limit.py:42-45 | All keys are forgotten |
| RateLimit.DequeIsWindow | app/infrastructure/rate_limit.py:31-34 | After any clock-ordered checks the deque holds exactly the admissions of the last window |
| RateLimit.WindowCap | app/infrastructure/rate_limit.py:35-39 | No window anywhere on such a run holds more than the allowed number of admissions |
| RateLimit.RefusedIffFull | app/infrastructure/rate_limit.py:35-40 | A check is refused exactly when its window is full, admitted exactly when it is not |
| RateLimit.RetryAfterIsTight | app/infrastructure/rate_limit.py:36-38 | On every clock-ordered run: however often the refused key is checked before its true wait is over, nothing is admitted; from then on a check is; the advertised seconds exceed the wait by at most one and lie in 1..window + 1 |
| RateLimit.RaisesIffNothingAllowed | app/infrastructure/rate_limit.py:35-36 | The first element of an empty deque is read exactly when nothing is allowed |
| RateLimit.CapNeedsClockOrderExactly | app/infrastructure/rate_limit.py:29-30 | Over all orders in which checks may take the lock, no window holds more than the limit if and only if the limit is one or the window empty |
| RateLimit.LockOrderInversionBreaksCap | app/infrastructure/rate_limit.py:29-30 | For every limit of two or more, a check that enters behind a later one can put one admission too many into a full window |
| Slug.ValidExactly | app/modules/workspaces/slug.py:19-23 | What validation accepts: the well-formed slugs, and those followed by one line feed |
| Slug.TrailingLineFeedAccepted | app/modules/workspaces/slug.py:5-23 | A concrete slug of the second kind |
| Slug.NormalizedValidExactly | app/modules/workspaces/schemas.py:23-31 | On what the request schema passes on, validation accepts the well-formed slugs and nothing else |
| Slug.NormalizeExactly | app/modules/workspaces/schemas.py:23-31 | White space around a requested slug does not matter, and a blank one counts as none |
| Slug.GenerateIsWellFormed | app/modules/workspaces/slug.py:9-16 | Whatever the name, the derived slug is well formed and at most 128 long |
| Slug.GenerateFixesSlugs | app/modules/workspaces/slug.py:9-16 | Derivation leaves well-formed slugs alone |
| Slug.GenerateKeeps | app/modules/workspaces/slug.py:9-16 | The slug is read off the name: its letters and digits in order, each run of other characters between them as one hyphen; only at the length limit is anything cut off behind |
| Numerals.DecimalRoundTrip | app/modules/workspaces/slug.py:28 | Decimal printing loses nothing |
| Slug.AppendIsWellFormed | app/modules/workspaces/slug.py:26-30 | A suffixed slug is legal exactly while the suffix leaves room for the base |
| Slug.AppendKeepsBase | app/modules/workspaces/slug.py:26-30 | The suffix stands behind the whole base if there is room; otherwise the base is cut no more than it must be |
| Slug.AppendIsInjective | app/modules/workspaces/slug.py:26-30 | Different counters give different slugs for one base |
| Slug.HitsAreBounded | app/modules/workspaces/service.py:250-254 | With n slugs in use, at most n + 1 lookups all hit, and at most n when no suffix gives back the base |
| Slug.ResolveSlug | app/modules/workspaces/service.py:241-255 | The search ends at the first free candidate; a given slug is checked and refused as the code does |
| Slug.ResolvedSlug | app/modules/workspaces/service.py:249-255 | With n slugs in use, at most n + 2 lookups, an unused slug, and a legal one |
| Slug.ResolutionIsLegal | app/modules/workspaces/service.py:241-255 | Asked for or derived, the slug of a new workspace is unused, well formed and at most 128 long |
| Slug.LookupBoundExact | app/modules/workspaces/service.py:249-255 | n + 1 lookups suffice for every set of n slugs exactly when the base does not end in a counter at the length limit |
| Slug.SelfSuffixExists | app/modules/workspaces/slug.py:26-30 | A base that is its own suffixed form |
| Slug.SelfSuffixIsLong | app/modules/workspaces/slug.py:26-30 | Only a base of at least 127 characters can be |
| Membership.WorkspaceStore.Create | app/modules/workspaces/repository.py:61-84 | The creator is the owner of the new workspace |
| Membership.WorkspaceStore.Invite | app/modules/workspaces/service.py:95-126 | The table and the answer after an invitation |
| Membership.WorkspaceStore.UpdateRole | app/modules/workspaces/service.py:134-193 | The table and the answer after a role change, with its late user lookup |
| Membership.WorkspaceStore.Remove | app/modules/workspaces/service.py:195-224 | The table and the answer after a removal |
| Membership.EveryRunKeepsOwners | app/modules/workspaces/repository.py:61-118 | On every run of requests each workspace keeps at least one owner |
| Membership.LastOwnerExactly | app/modules/workspaces/service.py:159-164 | The last-owner refusal comes exactly when the change would leave no owner |
| Membership.RolesAreConfined | app/modules/workspaces/permissions.py:27-64 | An admin's request never changes the owners; one by a member, viewer or outsider is forbidden and changes nothing |
| Membership.ForbiddenExactly | app/modules/workspaces/service.py:95-224 | Members, viewers and outsiders are always refused, owners never, and an admin exactly where an owner or the owner role is concerned |
| Membership.InviteExactly | app/modules/workspaces/service.py:95-126 | Which answer an invitation gets, told by roles; done, the invitee has the role and nobody else's changes |
| Membership.UpdateRoleExactly | app/modules/workspaces/service.py:134-193 | The same for a role change; the last-owner answer exactly if no other owner is left |
| Membership.RemoveExactly | app/modules/workspaces/service.py:195-224 | The same for a removal |
| Membership.CreateExactly | app/modules/workspaces/repository.py:61-84 | A new workspace has its creator as owner and no other member |
| Membership.WorkspacesAreIsolated | app/modules/workspaces/service.py:95-224 | A request on one workspace changes no membership of another |
| Membership.RefusedChangesExactly | app/modules/workspaces/service.py:166-173 | In any state, an answer other than success has changed the table if and only if it answers a permitted change to a different role of a member without a user row |
| Membership.RefusedMeansUnchanged | app/modules/workspaces/models.py:60-64 | Where members are users, any answer but success leaves the table unchanged |
| AgentRun.AgentStore.Execute | app/modules/agents/tool_executor.py:35-96 | Exactly one row is stored whatever happens, with the tool, the arguments, the output that is returned and its status |
| AgentRun.TruncateOutput | app/modules/agents/tool_executor.py:99-108 | Citations and error survive; content is unchanged or a marked, bounded prefix |
| AgentRun.AgentStore.Orchestrate | app/modules/agents/orchestrator.py:80-162 | Each stored call is the one planned from the outputs before it; the loop ends after eight calls or when the plan is to finish; each error comes in its own case; the citations are those rebuilt from the rows |
| AgentRun.RunIsDetermined | app/modules/agents/orchestrator.py:95-162 | Planner and tools leave no choice: they determine the calls, their number and the answer |
| AgentRun.AgentStore.StartInvestigation | app/modules/agents/service.py:114-217 | The response is that of such a run; its citations and call count are those of the stored rows, at most eight; other runs keep their rows |
| AgentRun.AgentStore.GetRunCitations | app/modules/agents/service.py:240-245 | The citations shown later are those rebuilt from the stored calls |
| AgentRun.ExtractCitations | app/modules/agents/service.py:358-378 | The loop over stored calls keeps the first citation of each chunk, in call order |
| AgentRun.CitationsStay | app/modules/agents/service.py:240-245 | Whatever is investigated later, the stored calls of a run and the citations rebuilt from them stay those of its response |
| AgentRun.RebuiltIsUnique | app/modules/agents/service.py:364-367 | Rebuilt citations are unique by chunk and leave out no cited chunk |
| AgentRun.FirstsByFirst | app/modules/agents/orchestrator.py:133-147 | Exactly the citations are kept that are the first with their chunk, in the order in which they stand |
| AgentRun.CitationsExactly | app/modules/agents/service.py:358-378 | Every citation of every stored call is considered, call by call |
| AgentRun.FilterRelatedDocuments | app/modules/agents/orchestrator.py:309-323 | The loop keeps the allowed identifiers, each once, in order of first mention |
| AgentRun.FilteredExactly | app/modules/agents/orchestrator.py:309-323 | A document is named exactly when it was proposed and is cited, and never twice |
| AgentRun.GroundedInOrder | app/modules/agents/orchestrator.py:309-323 | Every listing of an allowed document is considered, in order |
| Retrieval.TopKCommutesWithThreshold | app/modules/retrieval/service.py:84-95 | Taking the nearest k and then filtering is filtering and then taking the nearest k |
| Retrieval.SortLeavesRankedAlone | app/modules/retrieval/service.py:96 | The sort changes nothing about rows in distance order |
| Retrieval.SortIsSort | app/modules/retrieval/service.py:96 | On any list the sort keeps the matches and puts the highest score first |
| Retrieval.BuildRetrievedChunks | app/modules/retrieval/service.py:168-198 | Chunk for chunk in order, with the metadata of the best-ranked match of the same document |
| Retrieval.CacheAgreesWithLookup | app/modules/retrieval/service.py:168-198 | Each chunk has its own id, score and preview; the cached document data equal a fresh lookup; the whole metadata do exactly when the leader's chunk metadata do |
| Retrieval.RetrievalService.EmbedQuery | app/modules/retrieval/service.py:142-166 | The provider is asked exactly for queries that are not cached; only successes are cached |
| Retrieval.FilteredExactly | app/modules/ingestion/repository.py:174-195 | Exactly the rows whose document has the file type, source type and id that the filters ask for remain, each as often as before |
| Retrieval.BestExactly | app/modules/retrieval/service.py:84-98 | At most k rows are taken, best first, none below the threshold; a row left out is below it, or k rows at least as good are taken |
| Retrieval.RetrievalService.Search | app/modules/retrieval/service.py:59-140 | Blank queries, counts outside 1..50 and filters that are not allowed are refused; otherwise the answer is the best k of all rows that pass the filters and the threshold, every chunk of a document that the filters ask for, with insufficient context exactly when no such row is above the threshold |
| Markdown.EscapeIsOnePass | web/src/lib/ask/markdown.ts:6-13 | The five replacements in sequence equal one pass: none touches what another wrote |
| Markdown.EscapeRoundTrip | web/src/lib/ask/markdown.ts:6-13 | Unescaping an escaped text gives it back |
| Markdown.EscapedHasNoBracket | web/src/lib/ask/markdown.ts:6-13 | Escaped text holds no bracket and no quote |
| Markdown.SpansAreSafe | web/src/lib/ask/markdown.ts:15-21 | Inserting tags around spans keeps every tag whole |
| Markdown.InlineIsSafe | web/src/lib/ask/markdown.ts:15-21 | Every `<` of formatted text starts an inserted tag |
| MarkdownNesting.TagsComeInPairs | web/src/lib/ask/markdown.ts:15-21 | Opening and closing tags of each kind are equal in number |
| MarkdownNesting.SpansNest | web/src/lib/ask/markdown.ts:17-19 | Inserting a pair of tags around spans leaves the nesting as it is if the tags within each span nest, and destroys it otherwise |
| MarkdownNesting.NestsExactly | web/src/lib/ask/markdown.ts:15-21 | The tags of formatted text nest if and only if those within each bold span and within each italic span do |
| MarkdownNesting.CrossingTags | web/src/lib/ask/markdown.ts:15-21 | A family of texts whose code and italic tags cross |
| MarkdownText.InlineKeepsText | web/src/lib/ask/markdown.ts:15-21 | With the tags taken out and the entities read back, formatted text is the text without its marks |
| MarkdownText.SpansFormat | web/src/lib/ask/markdown.ts:15-21 | One code, bold or italic span in a plain text becomes one such element around its content |
| MarkdownText.LineTextExactly | web/src/lib/ask/markdown.ts:52-80 | A line is its heading mark or list marker, white space, and its text |
| MarkdownText.HeadingExactly | web/src/lib/ask/markdown.ts:52 | A line is a heading exactly if its pattern can be matched: one to three hashes, white space, and a rest of one line |
| MarkdownText.HeadingLevel | web/src/lib/ask/markdown.ts:52-60 | The level of a heading is the number of its hashes |
| MarkdownText.BlockExactly | web/src/lib/ask/markdown.ts:62-95 | A list or paragraph takes a maximal run of lines: one item for each, or the trimmed lines joined by spaces |
| MarkdownText.RenderingKeepsText | web/src/lib/ask/markdown.ts:45-98 | The visible text of the HTML has exactly the letters of the lines behind their markers, in order |
| MarkdownText.SplitExactly | web/src/lib/ask/markdown.ts:41 | The lines are what stands between the line feeds |
| MarkdownText.NormalizeReplaces | web/src/lib/ask/markdown.ts:36 | Every carriage return with a line feed becomes a line feed |
| MarkdownText.TrimExactly | web/src/lib/ask/markdown.ts:36 | Trimming takes off the white space around a text and nothing else |
| MarkdownBlocks.ProgressExactly | web/src/lib/ask/markdown.ts:45-95 | The loop advances at a line exactly when it is not a heading mark without heading text |
| MarkdownBlocks.TerminatesExactly | web/src/lib/ask/markdown.ts:45-96 | Rendering ends exactly when no line is stuck |
| MarkdownBlocks.EmptyHeadingIsStuck | web/src/lib/ask/markdown.ts:52-88 | A hash and any one white-space character is stuck; with a second one only if that ends a line |
| MarkdownBlocks.EndlessInputs | web/src/lib/ask/markdown.ts:45-96 | Two three-line inputs on which the loop never passes the second line |
| MarkdownBlocks.EndlessText | web/src/lib/ask/markdown.ts:35-41 | For every stuck line there is a text that the renderer splits into three lines around it and never gets past |
| MarkdownBlocks.HtmlIsSafe | web/src/lib/ask/markdown.ts:45-98 | Every `<` of the rendered blocks starts an inserted tag |
| MarkdownBlocks.UnorderedList | web/src/lib/ask/markdown.ts:62-69 | The loop takes exactly the run of items and emits them in order |
| MarkdownBlocks.OrderedList | web/src/lib/ask/markdown.ts:73-80 | The same for numbered items |
| MarkdownBlocks.ParagraphBlock | web/src/lib/ask/markdown.ts:84-95 | The loop takes exactly the run of paragraph lines and joins them trimmed |
| MarkdownBlocks.MarkdownToSafeHtml | web/src/lib/ask/markdown.ts:35-99 | For inputs without a stuck line the output is the blocks in order and contains no tag but the inserted ones |

## Left out

- Overlapping operations: two operations on one document do not overlap, except for the re-index during an
  attempt of `GuardExactly` and `OverlapExactly`, and membership requests on one workspace are taken one at a
  time. The results on retries and on redelivery after a crash are about the operations of one document.
- Unexpected exceptions re-raised at app/modules/ingestion/tasks.py:541-543 appear only as a process that dies
  after its last commit.
- Whether an exception is transient, which app/modules/ingestion/retry.py:50-67 decides by its type and message, is an
  input of the model.
- Which exception Celery raises when retries are exhausted: the parameter `exhaustionHandled`. A retry is a
  new message; its delay is `RetryCountdown` and otherwise time does not pass.
- Ids of documents and jobs are handed out in creation order, so the newest job is the one with the largest
  id; the database uses random ids and a creation time.
- A document's storage key and file type are represented by the message of the first of the four row checks
  that fails; file contents and stored files are not part of the model.
- IngestionStore.Store.ProcessIngestionJob: a failure message is stored as given, not truncated and sanitised.
- IngestionStore.Store.Work: extraction results and storage outcomes are inputs; a storage failure leaves the
  old chunks in place, as the rolled-back transaction does, and what a broken session does afterwards is not
  modelled.
- Embeddings.EmbedContentChunks: the usage events of one call; whether they reach the database when an attempt
  ends in a retry is not modelled, nor are latencies.
- Chunker.ChunkExtractionResult: the tokenizer, the paragraph split and the heading pattern are parameters;
  workspace, document, title and source type are not repeated in the metadata. The chunk size is at least 1,
  as the settings guarantee.
- Slug.GenerateIsWellFormed: `lower()` and `strip()` are applied before; the model starts from their result.
- Slug.ResolutionIsLegal: lowering is any function that puts no line feed at the end of a text.
- Chunker.HardSplitKeepsText: `RoundTrips` and `TearingGrows` are assumed of the tokenizer, whose code is not
  part of this model; so are `Subadditive` and `SlicesShrink` for Chunker.EveryChunkBound and
  Chunker.OverlapIsShort.
- TokenBudget.SummarizeDocument: a document that is missing, not indexed or empty is answered with an error
  code before selection, which is not modelled; prompts and the parsing of answers are parameters.
- Slug.ResolveSlug: the slugs in use do not change during the search; a concurrent insert is caught by the
  unique constraint, which is not modelled.
- RateLimit.InMemoryRateLimiter.Check: the clock is a parameter and a real number; threads appear as the order
  in which the lock is taken.
- Membership: users are never deleted, except that a role change looks its user up again.
- AgentRun.AgentStore.Orchestrate: the plan, the timeout and the summary call are parameters; summary texts,
  scores, titles and audit entries are left out, and citations with malformed ids, which raise, are not
  modelled.
- Retrieval.RetrievalService.Search: usage logging is left out; the rows of the workspace are given in
  distance order, and approximate vector search is not modelled.
- MarkdownBlocks.MarkdownToSafeHtml: requires that no line is stuck, because the loop does not end otherwise
  (`TerminatesExactly`).
- Routes, authentication, object storage, metrics, logging, heartbeat, migrations, cost tables, web pages and
  the content of prompts and model answers.
