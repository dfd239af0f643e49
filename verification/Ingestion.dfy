/**
 The ingestion protocol: what uploads, re-indexing, deletion and worker attempts commit, in
 which order, and what survives when any of them dies between two commits.

 A `State` is what the database and the broker hold between commits.  Every operation is the
 sequence of states its commits lead through; a step of the system takes an operation up to
 some commit, so that a crash after any commit is a step like any other.  Messages are never
 taken away from the broker: each may be delivered again at any time.
 */
module Ingestion {
  import opened Wrappers
  import opened Chunker
  import opened Embeddings

  type Id = nat

  const INGESTION_MAX_RETRIES: nat := 3

  datatype DocumentStatus = Uploaded | Processing | Indexed | Failed

  datatype JobStatus = Pending | Running | Completed | JobFailed

  /**
   A document row.  `rowError` is what the four checks on its storage key and file type report
   before any content is read; nothing changes it later.
   */
  datatype Document = Document(workspace: Id, status: DocumentStatus, rowError: Option<string>)

  datatype Job = Job(workspace: Id, document: Id, status: JobStatus, attempts: nat, error: Option<string>)

  /** A message of the queue, with the retry count that travels with it. */
  datatype Delivery = Delivery(job: Id, workspace: Id, document: Id, retries: nat)

  /**
   `nextId` hands out the ids of rows, in creation order.  `produced` is a record, kept by the
   model alone, of the chunks that each job's last storing attempt embedded.
   */
  datatype State = State(
    documents: map<Id, Document>, jobs: map<Id, Job>, chunks: map<Id, seq<EmbeddedChunk>>,
    sent: set<Delivery>, nextId: Id, produced: map<Id, seq<EmbeddedChunk>>)

  datatype ReadOutcome = Content | Unreadable(message: string) | ReadFailed(message: string, retryable: bool)

  datatype StoreOutcome = Stored | StoreFailed(message: string, retryable: bool)

  /** Everything outside the database that one attempt meets. */
  datatype Environment = Environment(
    read: ReadOutcome, extraction: Result<seq<Segment>, string>, provider: Provider, store: StoreOutcome)

  /** How the work of an attempt ends: chunks to store, a transient failure, or a permanent one. */
  datatype Verdict = Store(chunks: seq<EmbeddedChunk>) | Retry(message: string) | Fail(message: string)

  /**
   `work` is what an attempt does with a document between its commits; the protocol holds for
   any work.  `exhaustionHandled`: giving up on retries reaches the handler that fails the job.
   */
  datatype Settings = Settings(work: (Option<string>, Environment) -> Verdict, exhaustionHandled: bool)

  ghost predicate Contiguous(list: seq<EmbeddedChunk>) {
    forall i :: 0 <= i < |list| ==> list[i].chunkIndex == i
  }

  /** What the work must keep: the chunks it hands over carry their positions as indices. */
  ghost predicate ValidSettings(st: Settings) {
    forall rowError, env :: st.work(rowError, env).Store? ==> Contiguous(st.work(rowError, env).chunks)
  }

  // ----- queries

  function ChunksOf(s: State, d: Id): seq<EmbeddedChunk> {
    if d in s.chunks then s.chunks[d] else []
  }

  predicate Active(job: Job) {
    job.status == Pending || job.status == Running
  }

  /** `get_latest_for_document`: ids follow creation order, so the newest job has the largest id. */
  predicate Newest(jobs: map<Id, Job>, w: Id, d: Id, j: Id) {
    && j in jobs && jobs[j].document == d && jobs[j].workspace == w
    && forall k :: k in jobs && jobs[k].document == d && jobs[k].workspace == w ==> k <= j
  }

  predicate InProgress(jobs: map<Id, Job>, w: Id, d: Id) {
    exists j :: j in jobs && Newest(jobs, w, d, j) && Active(jobs[j])
  }

  predicate Found(s: State, w: Id, d: Id) {
    d in s.documents && s.documents[d].workspace == w
  }

  // ----- commits

  function SetStatus(s: State, d: Id, status: DocumentStatus): State
    requires d in s.documents
  {
    s.(documents := s.documents[d := s.documents[d].(status := status)])
  }

  function SetJob(s: State, j: Id, job: Job): State {
    s.(jobs := s.jobs[j := job])
  }

  function ClearChunks(s: State, d: Id): State {
    s.(chunks := s.chunks - {d})
  }

  function StoreChunks(s: State, d: Id, j: Id, list: seq<EmbeddedChunk>): State {
    s.(chunks := s.chunks[d := list], produced := s.produced[j := list])
  }

  function AddDocument(s: State, document: Document): State {
    s.(documents := s.documents[s.nextId := document], nextId := s.nextId + 1)
  }

  function AddJob(s: State, w: Id, d: Id): State {
    s.(jobs := s.jobs[s.nextId := Job(w, d, Pending, 0, None)], nextId := s.nextId + 1)
  }

  function Send(s: State, delivery: Delivery): State {
    s.(sent := s.sent + {delivery})
  }

  function DropJobs(s: State, w: Id, d: Id): State {
    s.(jobs := map j | j in s.jobs && !(s.jobs[j].document == d && s.jobs[j].workspace == w) :: s.jobs[j])
  }

  function DropDocument(s: State, d: Id): State {
    s.(documents := s.documents - {d})
  }

  /** `_fail_ingestion`: job and document in one commit. */
  function FailBoth(s: State, d: Id, j: Id, message: string): State
    requires d in s.documents && j in s.jobs
  {
    SetStatus(SetJob(s, j, s.jobs[j].(status := JobFailed, error := Some(message))), d, Failed)
  }

  // ----- operations as sequences of commits

  function UploadTrace(s: State, w: Id, rowError: Option<string>): seq<State> {
    var s1 := AddDocument(s, Document(w, Uploaded, rowError));
    var s2 := AddJob(s1, w, s.nextId);
    [s, s1, s2, Send(s2, Delivery(s1.nextId, w, s.nextId, 0))]
  }

  function ReindexTrace(s: State, w: Id, d: Id): seq<State> {
    if !Found(s, w, d) || InProgress(s.jobs, w, d) then [s]
    else
      var s1 := ClearChunks(s, d);
      var s2 := SetStatus(s1, d, Processing);
      var s3 := AddJob(s2, w, d);
      [s, s1, s2, s3, Send(s3, Delivery(s2.nextId, w, d, 0))]
  }

  function DeleteTrace(s: State, w: Id, d: Id): seq<State> {
    if !Found(s, w, d) then [s]
    else
      var s1 := ClearChunks(s, d);
      var s2 := DropJobs(s1, w, d);
      [s, s1, s2, DropDocument(s2, d)]
  }

  /** The guards at the head of an attempt. */
  predicate Accepts(s: State, delivery: Delivery) {
    && delivery.job in s.jobs
    && s.jobs[delivery.job].workspace == delivery.workspace
    && s.jobs[delivery.job].document == delivery.document
    && Active(s.jobs[delivery.job])
    && Found(s, delivery.workspace, delivery.document)
  }

  function Begin(s: State, delivery: Delivery): State
    requires Accepts(s, delivery)
  {
    var job := s.jobs[delivery.job];
    SetJob(s, delivery.job, job.(status := Running, attempts := job.attempts + 1))
  }

  /** The commits of an accepted attempt whose work ends with the given verdict. */
  function VerdictTrace(exhaustionHandled: bool, s: State, delivery: Delivery, verdict: Verdict): seq<State>
    requires Accepts(s, delivery)
  {
    var j, d := delivery.job, delivery.document;
    var s1 := Begin(s, delivery);
    var s2 := SetStatus(s1, d, Processing);
    match verdict
    case Fail(message) => [s, s1, s2, FailBoth(s2, d, j, message)]
    case Retry(message) =>
      if delivery.retries < INGESTION_MAX_RETRIES then [s, s1, s2, Send(s2, delivery.(retries := delivery.retries + 1))]
      else if exhaustionHandled then [s, s1, s2, FailBoth(s2, d, j, message)]
      else [s, s1, s2]
    case Store(list) =>
      var s3 := StoreChunks(s2, d, j, list);
      var s4 := SetJob(s3, j, s3.jobs[j].(status := Completed));
      [s, s1, s2, s3, s4, SetStatus(s4, d, Indexed)]
  }

  function AttemptTrace(st: Settings, s: State, delivery: Delivery, env: Environment): seq<State>
  {
    if !Accepts(s, delivery) then [s]
    else VerdictTrace(st.exhaustionHandled, s, delivery, st.work(s.documents[delivery.document].rowError, env))
  }

  // ----- steps and runs

  /** An operation together with the number of commits after which its process dies, if it has that many. */
  datatype Step =
    | Upload(workspace: Id, rowError: Option<string>, upto: nat)
    | Reindex(workspace: Id, document: Id, upto: nat)
    | Delete(workspace: Id, document: Id, upto: nat)
    | Attempt(delivery: Delivery, env: Environment, upto: nat)

  function Trace(st: Settings, s: State, step: Step): (t: seq<State>)
    ensures t != [] && t[0] == s
  {
    match step
    case Upload(w, rowError, _) => UploadTrace(s, w, rowError)
    case Reindex(w, d, _) => ReindexTrace(s, w, d)
    case Delete(w, d, _) => DeleteTrace(s, w, d)
    case Attempt(delivery, env, _) => AttemptTrace(st, s, delivery, env)
  }

  function At(t: seq<State>, k: nat): State
    requires t != []
  {
    if k < |t| then t[k] else t[|t| - 1]
  }

  function Next(st: Settings, s: State, step: Step): State
  {
    At(Trace(st, s, step), step.upto)
  }

  /** Only messages that were sent are delivered. */
  ghost predicate Enabled(s: State, step: Step) {
    step.Attempt? ==> step.delivery in s.sent
  }

  // ----- the invariant

  ghost predicate JobOf(s: State, d: Id, j: Id) {
    j in s.jobs && s.jobs[j].document == d
  }

  /** An active job is the newest of its document, so there is at most one. */
  ghost predicate OneActive(s: State, d: Id) {
    forall j, k :: JobOf(s, d, j) && JobOf(s, d, k) && Active(s.jobs[j]) ==> k <= j
  }

  /** The newest job is completed, and what is stored is what it embedded. */
  ghost predicate Served(s: State, d: Id)
    requires d in s.documents
  {
    exists j ::
      && Newest(s.jobs, s.documents[d].workspace, d, j)
      && s.jobs[j].status == Completed
      && j in s.produced && ChunksOf(s, d) == s.produced[j]
  }

  ghost predicate DocumentOk(s: State, d: Id) {
    d in s.documents ==> OneActive(s, d) && (s.documents[d].status == Indexed ==> Served(s, d))
  }

  /** Rows refer to existing rows of the same workspace, ids are handed out once, messages name jobs. */
  ghost predicate WellReferenced(s: State) {
    && (forall d :: d in s.documents ==> d < s.nextId)
    && (forall j :: j in s.jobs ==> j < s.nextId && Found(s, s.jobs[j].workspace, s.jobs[j].document))
    && (forall d :: d in s.chunks ==> d in s.documents)
    && (forall m :: m in s.sent ==> m.job < s.nextId && m.retries <= INGESTION_MAX_RETRIES)
  }

  ghost predicate Inv(s: State) {
    && WellReferenced(s)
    && (forall d :: DocumentOk(s, d))
    && (forall j :: j in s.produced ==> Contiguous(s.produced[j]))
  }

  /** Nothing about document `d` differs between the two states. */
  ghost predicate SameDocument(s: State, s': State, d: Id) {
    && (d in s.documents <==> d in s'.documents)
    && (d in s.documents ==> s.documents[d] == s'.documents[d])
    && ChunksOf(s, d) == ChunksOf(s', d)
    && (forall j :: JobOf(s, d, j) <==> JobOf(s', d, j))
    && (forall j :: JobOf(s, d, j) && j in s'.jobs ==>
      && s.jobs[j] == s'.jobs[j]
      && (j in s.produced <==> j in s'.produced)
      && (j in s.produced ==> s.produced[j] == s'.produced[j]))
  }

  lemma SameKeepsNewest(s: State, s': State, w: Id, d: Id, j: Id)
    requires SameDocument(s, s', d) && Newest(s.jobs, w, d, j)
    ensures Newest(s'.jobs, w, d, j) && s'.jobs[j] == s.jobs[j]
  {
    assert JobOf(s, d, j) && JobOf(s', d, j);
    forall k | k in s'.jobs && s'.jobs[k].document == d && s'.jobs[k].workspace == w
      ensures k <= j
    {
      assert JobOf(s', d, k) && JobOf(s, d, k);
    }
  }

  lemma SameKeepsServed(s: State, s': State, d: Id)
    requires SameDocument(s, s', d) && d in s.documents && Served(s, d)
    ensures d in s'.documents && Served(s', d)
  {
    var w := s.documents[d].workspace;
    var j :| Newest(s.jobs, w, d, j) && s.jobs[j].status == Completed && j in s.produced &&
      ChunksOf(s, d) == s.produced[j];
    SameKeepsNewest(s, s', w, d, j);
    assert JobOf(s, d, j);
  }

  lemma SameKeepsOk(s: State, s': State, d: Id)
    requires SameDocument(s, s', d) && DocumentOk(s, d)
    ensures DocumentOk(s', d)
  {
    if d in s.documents {
      assert OneActive(s', d);
      if s.documents[d].status == Indexed {
        SameKeepsServed(s, s', d);
      }
    }
  }

  /** A commit that concerns one document keeps the invariant if it establishes it for that document. */
  lemma LocalChange(s: State, s': State, d: Id)
    requires forall x :: x != d ==> DocumentOk(s, x)
    requires WellReferenced(s') && DocumentOk(s', d)
    requires forall x :: x != d ==> SameDocument(s, s', x)
    requires forall j :: j in s'.produced ==> Contiguous(s'.produced[j])
    ensures Inv(s')
  {
    forall x
      ensures DocumentOk(s', x)
    {
      if x != d {
        SameKeepsOk(s, s', x);
      }
    }
  }
}
