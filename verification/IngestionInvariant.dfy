/** Which commits of the ingestion protocol keep its invariant, and the only ones that do not. */
module IngestionInvariant {
  import opened Wrappers
  import opened Embeddings
  import opened Ingestion

  // ----- single commits

  ghost predicate NotIndexed(s: State, d: Id) {
    d in s.documents && s.documents[d].status != Indexed
  }

  ghost predicate NoActiveJob(s: State, d: Id) {
    forall j :: JobOf(s, d, j) ==> !Active(s.jobs[j])
  }

  lemma IndexedMeansNoActiveJob(s: State, d: Id)
    requires Inv(s) && d in s.documents && s.documents[d].status == Indexed
    ensures NoActiveJob(s, d)
  {
    assert DocumentOk(s, d);
    var k :| Newest(s.jobs, s.documents[d].workspace, d, k) && s.jobs[k].status == Completed;
    assert JobOf(s, d, k);
    assert forall j :: JobOf(s, d, j) ==> s.jobs[j].workspace == s.documents[d].workspace && j <= k;
  }

  lemma AcceptedIsNotIndexed(s: State, delivery: Delivery)
    requires Inv(s) && Accepts(s, delivery)
    ensures NotIndexed(s, delivery.document)
  {
    assert JobOf(s, delivery.document, delivery.job);
    if s.documents[delivery.document].status == Indexed {
      IndexedMeansNoActiveJob(s, delivery.document);
    }
  }

  lemma SetJobKeeps(s: State, j: Id, row: Job)
    requires Inv(s) && j in s.jobs && NotIndexed(s, s.jobs[j].document)
    requires row.document == s.jobs[j].document && row.workspace == s.jobs[j].workspace
    requires Active(row) ==> Active(s.jobs[j])
    ensures Inv(SetJob(s, j, row))
  {
    var d, s' := row.document, SetJob(s, j, row);
    assert DocumentOk(s, d);
    forall a, b | JobOf(s', d, a) && JobOf(s', d, b) && Active(s'.jobs[a])
      ensures b <= a
    {
      assert JobOf(s, d, a) && JobOf(s, d, b) && Active(s.jobs[a]);
    }
    LocalChange(s, s', d);
  }

  lemma SetStatusKeeps(s: State, d: Id, status: DocumentStatus)
    requires (forall x :: x != d ==> DocumentOk(s, x)) && OneActive(s, d)
    requires WellReferenced(s) && forall j :: j in s.produced ==> Contiguous(s.produced[j])
    requires d in s.documents && (status == Indexed ==> Served(s, d))
    ensures Inv(SetStatus(s, d, status))
  {
    var s' := SetStatus(s, d, status);
    assert forall j :: JobOf(s, d, j) <==> JobOf(s', d, j);
    if status == Indexed {
      var w := s.documents[d].workspace;
      var j :| Newest(s.jobs, w, d, j) && s.jobs[j].status == Completed && j in s.produced &&
        ChunksOf(s, d) == s.produced[j];
      assert Newest(s'.jobs, w, d, j);
    }
    LocalChange(s, s', d);
  }

  lemma StoreChunksKeeps(s: State, d: Id, j: Id, list: seq<EmbeddedChunk>)
    requires Inv(s) && JobOf(s, d, j) && NotIndexed(s, d) && Contiguous(list)
    ensures Inv(StoreChunks(s, d, j, list))
  {
    var s' := StoreChunks(s, d, j, list);
    assert DocumentOk(s, d);
    assert OneActive(s', d) by {
      assert forall k :: JobOf(s', d, k) <==> JobOf(s, d, k);
    }
    LocalChange(s, s', d);
  }

  lemma SendKeeps(s: State, delivery: Delivery)
    requires Inv(s) && delivery.job < s.nextId && delivery.retries <= INGESTION_MAX_RETRIES
    ensures Inv(Send(s, delivery))
  {
    assert DocumentOk(s, delivery.document);
    var s' := Send(s, delivery);
    assert SameDocument(s, s', delivery.document);
    SameKeepsOk(s, s', delivery.document);
    LocalChange(s, s', delivery.document);
  }

  lemma AddDocumentKeeps(s: State, w: Id, rowError: Option<string>)
    requires Inv(s)
    ensures Inv(AddDocument(s, Document(w, Uploaded, rowError)))
    ensures NoActiveJob(AddDocument(s, Document(w, Uploaded, rowError)), s.nextId)
  {
    var d, s' := s.nextId, AddDocument(s, Document(w, Uploaded, rowError));
    assert forall j :: !JobOf(s, d, j) && !JobOf(s', d, j);
    LocalChange(s, s', d);
  }

  lemma AddJobKeeps(s: State, w: Id, d: Id)
    requires Inv(s) && Found(s, w, d) && NotIndexed(s, d) && NoActiveJob(s, d)
    ensures Inv(AddJob(s, w, d))
  {
    var n, s' := s.nextId, AddJob(s, w, d);
    forall a, b | JobOf(s', d, a) && JobOf(s', d, b) && Active(s'.jobs[a])
      ensures b <= a
    {
      assert a == n by {
        assert a != n ==> JobOf(s, d, a);
      }
      assert b != n ==> JobOf(s, d, b);
    }
    LocalChange(s, s', d);
  }

  lemma IdleMeansNoActiveJob(s: State, w: Id, d: Id)
    requires Inv(s) && Found(s, w, d) && !InProgress(s.jobs, w, d)
    ensures NoActiveJob(s, d)
  {
    assert DocumentOk(s, d);
    forall j | JobOf(s, d, j)
      ensures !Active(s.jobs[j])
    {
      if Active(s.jobs[j]) {
        assert forall k :: k in s.jobs && s.jobs[k].document == d ==> JobOf(s, d, k);
        assert Newest(s.jobs, w, d, j);
      }
    }
  }

  // ----- commits that can tear an indexed document

  lemma NewestIsUnique(s: State, w: Id, d: Id, j: Id, k: Id)
    requires Newest(s.jobs, w, d, j) && Newest(s.jobs, w, d, k)
    ensures j == k
  {
  }

  lemma ClearChunksExact(s: State, d: Id)
    requires Inv(s) && d in s.documents
    ensures Inv(ClearChunks(s, d)) <==> NotIndexed(s, d) || ChunksOf(s, d) == []
  {
    var s', w := ClearChunks(s, d), s.documents[d].workspace;
    assert DocumentOk(s, d);
    assert forall j :: JobOf(s, d, j) <==> JobOf(s', d, j);
    if s.documents[d].status == Indexed {
      var j :| Newest(s.jobs, w, d, j) && s.jobs[j].status == Completed && j in s.produced &&
        ChunksOf(s, d) == s.produced[j];
      assert Newest(s'.jobs, w, d, j);
      if Inv(s') {
        assert DocumentOk(s', d);
        var k :| Newest(s'.jobs, w, d, k) && k in s'.produced && ChunksOf(s', d) == s'.produced[k];
        NewestIsUnique(s', w, d, j, k);
      }
    }
    if NotIndexed(s, d) || ChunksOf(s, d) == [] {
      assert DocumentOk(s', d);
      LocalChange(s, s', d);
    }
  }

  lemma ClearChunksLocal(s: State, d: Id)
    requires Inv(s) && d in s.documents
    ensures var s' := ClearChunks(s, d);
      && WellReferenced(s') && (forall x :: x != d ==> DocumentOk(s', x))
      && OneActive(s', d) && (NoActiveJob(s, d) ==> NoActiveJob(s', d))
  {
    var s' := ClearChunks(s, d);
    assert DocumentOk(s, d);
    assert forall j :: JobOf(s, d, j) <==> JobOf(s', d, j);
    forall x | x != d
      ensures DocumentOk(s', x)
    {
      assert SameDocument(s, s', x);
      SameKeepsOk(s, s', x);
    }
  }

  lemma DropJobsExact(s: State, w: Id, d: Id)
    requires Inv(s) && Found(s, w, d)
    ensures var s' := DropJobs(ClearChunks(s, d), w, d);
      && WellReferenced(s') && (forall x :: x != d ==> DocumentOk(s', x))
      && (forall j :: !JobOf(s', d, j)) && d !in s'.chunks
      && (Inv(s') <==> NotIndexed(s, d))
  {
    var s' := DropJobs(ClearChunks(s, d), w, d);
    assert forall j :: !JobOf(s', d, j) by {
      forall j
        ensures !JobOf(s', d, j)
      {
        assert j in s'.jobs ==> j in s.jobs;
      }
    }
    forall x | x != d
      ensures SameDocument(s, s', x) && DocumentOk(s', x)
    {
      SameDocumentAfterDrop(s, w, d, x);
      SameKeepsOk(s, s', x);
    }
    if NotIndexed(s, d) {
      LocalChange(s, s', d);
    } else {
      assert forall j :: Newest(s'.jobs, w, d, j) ==> JobOf(s', d, j);
      assert !DocumentOk(s', d);
    }
  }

  lemma SameDocumentAfterDrop(s: State, w: Id, d: Id, x: Id)
    requires x != d
    ensures SameDocument(s, DropJobs(ClearChunks(s, d), w, d), x)
  {
  }

  lemma DropDocumentKeeps(s: State, d: Id)
    requires WellReferenced(s) && (forall x :: x != d ==> DocumentOk(s, x))
    requires (forall j :: !JobOf(s, d, j)) && d !in s.chunks
    requires forall j :: j in s.produced ==> Contiguous(s.produced[j])
    ensures Inv(DropDocument(s, d))
  {
    var s' := DropDocument(s, d);
    forall j | j in s'.jobs
      ensures Found(s', s'.jobs[j].workspace, s'.jobs[j].document)
    {
      assert !JobOf(s, d, j);
    }
    LocalChange(s, s', d);
  }

  // ----- operations

  /** The states of a trace from position `from` on satisfy the invariant. */
  ghost predicate AllInv(t: seq<State>, from: nat) {
    forall k :: from <= k < |t| ==> Inv(t[k])
  }

  lemma UploadKeeps(s: State, w: Id, rowError: Option<string>)
    requires Inv(s)
    ensures AllInv(UploadTrace(s, w, rowError), 0)
  {
    var s1 := AddDocument(s, Document(w, Uploaded, rowError));
    var s2 := AddJob(s1, w, s.nextId);
    AddDocumentKeeps(s, w, rowError);
    AddJobKeeps(s1, w, s.nextId);
    SendKeeps(s2, Delivery(s1.nextId, w, s.nextId, 0));
  }

  lemma ReindexKeeps(s: State, w: Id, d: Id)
    requires Inv(s) && Found(s, w, d) && !InProgress(s.jobs, w, d)
    ensures AllInv(ReindexTrace(s, w, d), 2)
    ensures Inv(ReindexTrace(s, w, d)[1]) <==> NotIndexed(s, d) || ChunksOf(s, d) == []
  {
    var s1 := ClearChunks(s, d);
    var s2 := SetStatus(s1, d, Processing);
    var s3 := AddJob(s2, w, d);
    ClearChunksExact(s, d);
    IdleMeansNoActiveJob(s, w, d);
    ClearChunksLocal(s, d);
    SetStatusKeeps(s1, d, Processing);
    assert forall j :: JobOf(s2, d, j) <==> JobOf(s1, d, j);
    AddJobKeeps(s2, w, d);
    SendKeeps(s3, Delivery(s2.nextId, w, d, 0));
  }

  lemma DeleteKeeps(s: State, w: Id, d: Id)
    requires Inv(s) && Found(s, w, d)
    ensures AllInv(DeleteTrace(s, w, d), 3)
    ensures Inv(DeleteTrace(s, w, d)[1]) <==> NotIndexed(s, d) || ChunksOf(s, d) == []
    ensures Inv(DeleteTrace(s, w, d)[2]) <==> NotIndexed(s, d)
  {
    ClearChunksExact(s, d);
    DropJobsExact(s, w, d);
    DropDocumentKeeps(DropJobs(ClearChunks(s, d), w, d), d);
  }

  lemma BeginKeeps(s: State, delivery: Delivery)
    requires Inv(s) && Accepts(s, delivery)
    ensures var s1 := Begin(s, delivery); var s2 := SetStatus(s1, delivery.document, Processing);
      Inv(s1) && Accepts(s1, delivery) && Inv(s2) && Accepts(s2, delivery) && NotIndexed(s2, delivery.document)
  {
    AcceptedIsNotIndexed(s, delivery);
    var s1 := Begin(s, delivery);
    SetJobKeeps(s, delivery.job, s1.jobs[delivery.job]);
    assert DocumentOk(s1, delivery.document);
    SetStatusKeeps(s1, delivery.document, Processing);
  }

  lemma FailBothKeeps(s: State, delivery: Delivery, message: string)
    requires Inv(s) && Accepts(s, delivery)
    ensures Inv(FailBoth(s, delivery.document, delivery.job, message))
  {
    AcceptedIsNotIndexed(s, delivery);
    var row := s.jobs[delivery.job].(status := JobFailed, error := Some(message));
    var s1 := SetJob(s, delivery.job, row);
    SetJobKeeps(s, delivery.job, row);
    assert DocumentOk(s1, delivery.document);
    SetStatusKeeps(s1, delivery.document, Failed);
  }

  /** Chunks first, then the job, then the document: no commit in between serves anything unfinished. */
  lemma CompleteKeeps(s: State, delivery: Delivery, list: seq<EmbeddedChunk>)
    requires Inv(s) && Accepts(s, delivery) && Contiguous(list)
    ensures
      var j, d := delivery.job, delivery.document;
      var s3 := StoreChunks(s, d, j, list);
      var s4 := SetJob(s3, j, s3.jobs[j].(status := Completed));
      Inv(s3) && Inv(s4) && Inv(SetStatus(s4, d, Indexed))
  {
    var j, d, w := delivery.job, delivery.document, delivery.workspace;
    AcceptedIsNotIndexed(s, delivery);
    assert JobOf(s, d, j) && DocumentOk(s, d);
    var s3 := StoreChunks(s, d, j, list);
    StoreChunksKeeps(s, d, j, list);
    var row := s3.jobs[j].(status := Completed);
    var s4 := SetJob(s3, j, row);
    SetJobKeeps(s3, j, row);
    assert DocumentOk(s4, d);
    assert Newest(s4.jobs, w, d, j) by {
      forall k | k in s4.jobs && s4.jobs[k].document == d
        ensures k <= j
      {
        assert JobOf(s, d, k);
      }
    }
    SetStatusKeeps(s4, d, Indexed);
  }

  lemma VerdictKeeps(st: Settings, s: State, delivery: Delivery, verdict: Verdict)
    requires Inv(s) && Accepts(s, delivery) && delivery.retries <= INGESTION_MAX_RETRIES
    requires verdict.Store? ==> Contiguous(verdict.chunks)
    ensures AllInv(VerdictTrace(st.exhaustionHandled, s, delivery, verdict), 0)
  {
    var s2 := SetStatus(Begin(s, delivery), delivery.document, Processing);
    BeginKeeps(s, delivery);
    match verdict
    case Fail(message) => FailBothKeeps(s2, delivery, message);
    case Retry(message) =>
      if delivery.retries < INGESTION_MAX_RETRIES {
        SendKeeps(s2, delivery.(retries := delivery.retries + 1));
      } else {
        FailBothKeeps(s2, delivery, message);
      }
    case Store(list) => CompleteKeeps(s2, delivery, list);
  }

  lemma AttemptKeeps(st: Settings, s: State, delivery: Delivery, env: Environment)
    requires ValidSettings(st) && Inv(s) && delivery.retries <= INGESTION_MAX_RETRIES
    ensures AllInv(AttemptTrace(st, s, delivery, env), 0)
  {
    if Accepts(s, delivery) {
      VerdictKeeps(st, s, delivery, st.work(s.documents[delivery.document].rowError, env));
    }
  }

  // ----- steps and runs

  /**
   A request dies where its commits leave an indexed document without what it serves: between
   clearing its chunks, or dropping its jobs, and the next commit on its row.
   */
  ghost predicate Torn(s: State, step: Step) {
    match step
    case Reindex(w, d, upto) =>
      && upto == 1 && Found(s, w, d) && !InProgress(s.jobs, w, d)
      && s.documents[d].status == Indexed && ChunksOf(s, d) != []
    case Delete(w, d, upto) =>
      Found(s, w, d) && s.documents[d].status == Indexed && ((upto == 1 && ChunksOf(s, d) != []) || upto == 2)
    case _ => false
  }

  /**
   One step, with a crash after any commit, keeps the invariant if and only if it is not a
   request that dies in one of those gaps.
   */
  lemma StepKeepsInvariantExactly(st: Settings, s: State, step: Step)
    requires ValidSettings(st) && Inv(s) && Enabled(s, step)
    ensures Inv(Next(st, s, step)) <==> !Torn(s, step)
  {
    match step
    case Upload(w, rowError, upto) => UploadKeeps(s, w, rowError);
    case Reindex(w, d, upto) =>
      if Found(s, w, d) && !InProgress(s.jobs, w, d) {
        ReindexKeeps(s, w, d);
      }
    case Delete(w, d, upto) =>
      if Found(s, w, d) {
        DeleteKeeps(s, w, d);
      }
    case Attempt(delivery, env, upto) => AttemptKeeps(st, s, delivery, env);
  }

  const EMPTY := State(map[], map[], map[], {}, 0, map[])

  ghost function Run(st: Settings, s: State, steps: seq<Step>): State
    decreases |steps|
  {
    if steps == [] then s else Run(st, Next(st, s, steps[0]), steps[1..])
  }
}
