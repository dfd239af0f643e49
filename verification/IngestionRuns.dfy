/**
 What whole runs of the ingestion protocol do: isolation of documents and workspaces, terminal
 jobs, redelivery after a crash, retries and their exhaustion, and the one overlap that the
 re-index guard does not cover.
 */
module IngestionRuns {
  import opened Wrappers
  import opened Embeddings
  import opened Ingestion
  import opened IngestionInvariant

  // ----- isolation

  /** The step is a request or a message about document `d` in the workspace that owns it. */
  ghost predicate Concerns(s: State, step: Step, d: Id)
    requires d in s.documents
  {
    match step
    case Upload(_, _, _) => false
    case Reindex(w, x, _) => x == d && w == s.documents[d].workspace
    case Delete(w, x, _) => x == d && w == s.documents[d].workspace
    case Attempt(delivery, _, _) => delivery.document == d && delivery.workspace == s.documents[d].workspace
  }

  ghost predicate AllSame(s: State, t: seq<State>, d: Id) {
    forall k :: 0 <= k < |t| ==> SameDocument(s, t[k], d)
  }

  lemma UploadIsolated(s: State, w: Id, rowError: Option<string>, d: Id)
    requires WellReferenced(s) && d in s.documents
    ensures AllSame(s, UploadTrace(s, w, rowError), d)
  {
  }

  lemma ReindexIsolated(s: State, w: Id, x: Id, d: Id)
    requires WellReferenced(s) && d in s.documents && d != x
    ensures AllSame(s, ReindexTrace(s, w, x), d)
  {
    if Found(s, w, x) && !InProgress(s.jobs, w, x) {
      var s2 := SetStatus(ClearChunks(s, x), x, Processing);
      assert SameDocument(s, ClearChunks(s, x), d) && SameDocument(s, s2, d);
      NewJobIsolated(s, s2, w, x, Delivery(s.nextId, w, x, 0), d);
    }
  }

  lemma NewJobIsolated(s: State, s': State, w: Id, x: Id, delivery: Delivery, d: Id)
    requires WellReferenced(s) && s'.nextId >= s.nextId && SameDocument(s, s', d) && d != x && s'.produced == s.produced
    ensures SameDocument(s, AddJob(s', w, x), d) && SameDocument(s, Send(AddJob(s', w, x), delivery), d)
  {
    assert forall j: Id :: JobOf(s, d, j) ==> j < s.nextId;
  }

  lemma DeleteIsolated(s: State, w: Id, x: Id, d: Id)
    requires WellReferenced(s) && d in s.documents && d != x
    ensures AllSame(s, DeleteTrace(s, w, x), d)
  {
    if Found(s, w, x) {
      SameDocumentAfterDrop(s, w, x, d);
      assert SameDocument(s, DropDocument(DropJobs(ClearChunks(s, x), w, x), x), d);
    }
  }

  /** `s'` differs from `s` at most in the row and chunks of document `x`, and in job `j` and its record. */
  ghost predicate Confined(s: State, s': State, x: Id, j: Id) {
    && s'.documents - {x} == s.documents - {x}
    && s'.chunks - {x} == s.chunks - {x}
    && s'.jobs - {j} == s.jobs - {j} && j in s.jobs && j in s'.jobs && s.jobs[j].document == s'.jobs[j].document == x
    && s'.produced - {j} == s.produced - {j}
  }

  lemma ConfinedIsSame(s: State, s': State, x: Id, j: Id, d: Id)
    requires Confined(s, s', x, j) && d != x
    ensures SameDocument(s, s', d)
  {
    assert d in s.documents <==> d in s'.documents - {x};
    assert d in s.chunks <==> d in s'.chunks - {x};
    forall k
      ensures JobOf(s, d, k) <==> JobOf(s', d, k)
      ensures JobOf(s, d, k) ==> s.jobs[k] == s'.jobs[k] && (k in s.produced <==> k in s'.produced)
      ensures JobOf(s, d, k) && k in s.produced ==> s.produced[k] == s'.produced[k]
    {
      assert k != j ==> (k in s.jobs <==> k in s'.jobs - {j}) && (k in s.produced <==> k in s'.produced - {j});
    }
  }

  lemma BeginIsConfined(s: State, delivery: Delivery)
    requires Accepts(s, delivery)
    ensures Confined(s, Begin(s, delivery), delivery.document, delivery.job)
    ensures Confined(s, SetStatus(Begin(s, delivery), delivery.document, Processing), delivery.document, delivery.job)
  {
  }

  lemma CommitsAreConfined(s: State, s2: State, x: Id, j: Id, row: Job, status: DocumentStatus,
      list: seq<EmbeddedChunk>)
    requires Confined(s, s2, x, j) && row.document == x && x in s2.documents
    ensures
      var s3 := StoreChunks(s2, x, j, list);
      var s4 := SetJob(s3, j, row);
      && Confined(s, s3, x, j) && Confined(s, s4, x, j) && Confined(s, SetStatus(s4, x, status), x, j)
      && Confined(s, SetStatus(SetJob(s2, j, row), x, status), x, j)
  {
  }

  lemma VerdictIsConfined(exhaustionHandled: bool, s: State, delivery: Delivery, verdict: Verdict, k: nat)
    requires Accepts(s, delivery) && k < |VerdictTrace(exhaustionHandled, s, delivery, verdict)|
    ensures Confined(s, VerdictTrace(exhaustionHandled, s, delivery, verdict)[k], delivery.document, delivery.job)
  {
    var x, j := delivery.document, delivery.job;
    var s2 := SetStatus(Begin(s, delivery), x, Processing);
    BeginIsConfined(s, delivery);
    if k >= 3 {
      match verdict
      case Store(list) => CommitsAreConfined(s, s2, x, j, s2.jobs[j].(status := Completed), Indexed, list);
      case Fail(message) =>
        CommitsAreConfined(s, s2, x, j, s2.jobs[j].(status := JobFailed, error := Some(message)), Failed, []);
      case Retry(message) =>
        CommitsAreConfined(s, s2, x, j, s2.jobs[j].(status := JobFailed, error := Some(message)), Failed, []);
    }
  }

  lemma VerdictIsolated(st: Settings, s: State, delivery: Delivery, verdict: Verdict, d: Id)
    requires Accepts(s, delivery) && d != delivery.document
    ensures AllSame(s, VerdictTrace(st.exhaustionHandled, s, delivery, verdict), d)
  {
    var t := VerdictTrace(st.exhaustionHandled, s, delivery, verdict);
    forall k | 0 <= k < |t|
      ensures SameDocument(s, t[k], d)
    {
      VerdictIsConfined(st.exhaustionHandled, s, delivery, verdict, k);
      ConfinedIsSame(s, t[k], delivery.document, delivery.job, d);
    }
  }

  /** No step changes anything about a document that it does not concern, or in another workspace. */
  lemma StepIsIsolated(st: Settings, s: State, step: Step, d: Id)
    requires WellReferenced(s) && d in s.documents && !Concerns(s, step, d)
    ensures SameDocument(s, Next(st, s, step), d)
  {
    match step
    case Upload(w, rowError, _) => UploadIsolated(s, w, rowError, d);
    case Reindex(w, x, _) => if x != d { ReindexIsolated(s, w, x, d); }
    case Delete(w, x, _) => if x != d { DeleteIsolated(s, w, x, d); }
    case Attempt(delivery, env, _) =>
      if Accepts(s, delivery) {
        VerdictIsolated(st, s, delivery, st.work(s.documents[delivery.document].rowError, env), d);
      }
  }

  // ----- references

  ghost predicate AllReferenced(t: seq<State>) {
    forall k :: 0 <= k < |t| ==> WellReferenced(t[k])
  }

  lemma UploadReferences(s: State, w: Id, rowError: Option<string>)
    requires WellReferenced(s)
    ensures AllReferenced(UploadTrace(s, w, rowError))
  {
  }

  lemma ReindexReferences(s: State, w: Id, d: Id)
    requires WellReferenced(s)
    ensures AllReferenced(ReindexTrace(s, w, d))
  {
  }

  lemma DeleteReferences(s: State, w: Id, d: Id)
    requires WellReferenced(s)
    ensures AllReferenced(DeleteTrace(s, w, d))
  {
  }

  lemma BeginReferences(s: State, delivery: Delivery)
    requires WellReferenced(s) && Accepts(s, delivery)
    ensures WellReferenced(Begin(s, delivery))
    ensures WellReferenced(SetStatus(Begin(s, delivery), delivery.document, Processing))
  {
  }

  lemma VerdictReferences(exhaustionHandled: bool, s: State, delivery: Delivery, verdict: Verdict)
    requires WellReferenced(s) && Accepts(s, delivery)
    ensures AllReferenced(VerdictTrace(exhaustionHandled, s, delivery, verdict))
  {
    var s2 := SetStatus(Begin(s, delivery), delivery.document, Processing);
    BeginReferences(s, delivery);
    match verdict
    case Store(list) => StoreReferences(s2, delivery, list);
    case Fail(message) => FailReferences(s2, delivery, message);
    case Retry(message) => FailReferences(s2, delivery, message);
  }

  lemma StoreReferences(s: State, delivery: Delivery, list: seq<EmbeddedChunk>)
    requires WellReferenced(s) && Accepts(s, delivery)
    ensures
      var j, d := delivery.job, delivery.document;
      var s3 := StoreChunks(s, d, j, list);
      var s4 := SetJob(s3, j, s3.jobs[j].(status := Completed));
      WellReferenced(s3) && WellReferenced(s4) && WellReferenced(SetStatus(s4, d, Indexed))
  {
  }

  lemma FailReferences(s: State, delivery: Delivery, message: string)
    requires WellReferenced(s) && Accepts(s, delivery)
    ensures WellReferenced(FailBoth(s, delivery.document, delivery.job, message))
    ensures delivery.retries < INGESTION_MAX_RETRIES ==>
      WellReferenced(Send(s, delivery.(retries := delivery.retries + 1)))
  {
  }

  /** Rows refer to existing rows in every state of every run, whatever dies. */
  lemma StepKeepsReferences(st: Settings, s: State, step: Step)
    requires WellReferenced(s)
    ensures WellReferenced(Next(st, s, step))
  {
    match step
    case Upload(w, rowError, _) => UploadReferences(s, w, rowError);
    case Reindex(w, d, _) => ReindexReferences(s, w, d);
    case Delete(w, d, _) => DeleteReferences(s, w, d);
    case Attempt(delivery, env, _) =>
      if Accepts(s, delivery) {
        VerdictReferences(st.exhaustionHandled, s, delivery, st.work(s.documents[delivery.document].rowError, env));
      }
  }

  // ----- terminal jobs

  /** Redelivering a message whose job is terminal or gone changes nothing at all. */
  lemma RedeliveryIsIgnored(st: Settings, s: State, delivery: Delivery, env: Environment, upto: nat)
    requires delivery.job in s.jobs ==> !Active(s.jobs[delivery.job])
    ensures Next(st, s, Attempt(delivery, env, upto)) == s
  {
  }

  /** `j` has been handed out and, if it still names a job, that job is terminal. */
  ghost predicate Settled(s: State, j: Id) {
    j < s.nextId && (j in s.jobs ==> !Active(s.jobs[j]))
  }

  ghost predicate Unchanged(s: State, s': State, j: Id) {
    s.nextId <= s'.nextId && (j in s'.jobs ==> j in s.jobs && s'.jobs[j] == s.jobs[j])
  }

  lemma StepKeepsSettled(st: Settings, s: State, step: Step, j: Id)
    requires Settled(s, j)
    ensures Unchanged(s, Next(st, s, step), j)
  {
    if step.Attempt? && Accepts(s, step.delivery) {
      VerdictKeepsOtherJobs(st, s, step.delivery, st.work(s.documents[step.delivery.document].rowError, step.env), j,
        step.upto);
    }
  }

  lemma VerdictKeepsOtherJobs(st: Settings, s: State, delivery: Delivery, verdict: Verdict, j: Id, k: nat)
    requires Accepts(s, delivery) && j != delivery.job
    ensures Unchanged(s, At(VerdictTrace(st.exhaustionHandled, s, delivery, verdict), k), j)
  {
  }

  /** Completed and failed are absorbing, and the id of a deleted job never names a job again. */
  lemma {:induction false} SettledForever(st: Settings, s: State, steps: seq<Step>, j: Id)
    requires Settled(s, j)
    ensures Unchanged(s, Run(st, s, steps), j)
    decreases |steps|
  {
    if steps != [] {
      StepKeepsSettled(st, s, steps[0], j);
      SettledForever(st, Next(st, s, steps[0]), steps[1..], j);
    }
  }

  lemma {:induction false} RunAppend(st: Settings, s: State, a: seq<Step>, b: seq<Step>)
    ensures Run(st, s, a + b) == Run(st, Run(st, s, a), b)
    decreases |a|
  {
    if a == [] {
      assert a + b == b;
    } else {
      assert (a + b)[0] == a[0] && (a + b)[1..] == a[1..] + b;
      RunAppend(st, Next(st, s, a[0]), a[1..], b);
    }
  }

  /** A message delivered again at any time after its job is terminal or gone makes no difference to the run. */
  lemma RedeliveryIsInvisible(st: Settings, s: State, before: seq<Step>, between: seq<Step>, after: seq<Step>,
      delivery: Delivery, env: Environment, upto: nat)
    requires Settled(Run(st, s, before), delivery.job)
    ensures Run(st, s, before + between + [Attempt(delivery, env, upto)] + after)
      == Run(st, s, before + between + after)
  {
    var again := Attempt(delivery, env, upto);
    var s1 := Run(st, s, before + between);
    RunAppend(st, s, before, between);
    SettledForever(st, Run(st, s, before), between, delivery.job);
    RedeliveryIsIgnored(st, s1, delivery, env, upto);
    RunAppend(st, s, before + between, after);
    RunAppend(st, s, before + between, [again]);
    RunAppend(st, s, before + between + [again], after);
    assert [again][1..] == [] && Run(st, s1, [again]) == s1;
  }

  // ----- attempts

  /** Does this step commit job `j` as running? */
  ghost predicate Enters(s: State, step: Step, j: Id) {
    step.Attempt? && step.delivery.job == j && step.upto >= 1 && Accepts(s, step.delivery)
  }

  ghost function Entries(st: Settings, s: State, steps: seq<Step>, j: Id): nat
    decreases |steps|
  {
    if steps == [] then 0
    else (if Enters(s, steps[0], j) then 1 else 0) + Entries(st, Next(st, s, steps[0]), steps[1..], j)
  }

  ghost function Attempts(s: State, j: Id): nat {
    if j in s.jobs then s.jobs[j].attempts else 0
  }

  ghost predicate FreshIds(s: State) {
    forall j :: j in s.jobs ==> j < s.nextId
  }

  lemma StepCountsAttempts(st: Settings, s: State, step: Step, j: Id)
    requires FreshIds(s) && j in Next(st, s, step).jobs
    ensures Attempts(Next(st, s, step), j) == Attempts(s, j) + if Enters(s, step, j) then 1 else 0
  {
    if step.Attempt? && Accepts(s, step.delivery) {
      VerdictCountsAttempts(st, s, step.delivery, st.work(s.documents[step.delivery.document].rowError, step.env), j,
        step.upto);
    }
  }

  lemma VerdictCountsAttempts(st: Settings, s: State, delivery: Delivery, verdict: Verdict, j: Id, k: nat)
    requires Accepts(s, delivery)
    ensures Attempts(At(VerdictTrace(st.exhaustionHandled, s, delivery, verdict), k), j)
      == Attempts(s, j) + if delivery.job == j && k >= 1 then 1 else 0
  {
  }

  lemma NextIdGrows(st: Settings, s: State, step: Step)
    ensures s.nextId <= Next(st, s, step).nextId
    ensures FreshIds(s) ==> FreshIds(Next(st, s, step))
  {
    if step.Attempt? && Accepts(s, step.delivery) {
      VerdictAddsNoJob(st, s, step.delivery, st.work(s.documents[step.delivery.document].rowError, step.env),
        step.upto);
    }
  }

  lemma VerdictAddsNoJob(st: Settings, s: State, delivery: Delivery, verdict: Verdict, k: nat)
    requires Accepts(s, delivery)
    ensures At(VerdictTrace(st.exhaustionHandled, s, delivery, verdict), k).nextId == s.nextId
    ensures At(VerdictTrace(st.exhaustionHandled, s, delivery, verdict), k).jobs.Keys == s.jobs.Keys
  {
  }

  /** A job's `attempt_count` is the number of attempts that entered processing, crashed ones included. */
  lemma {:induction false} AttemptCountIsEntries(st: Settings, s: State, steps: seq<Step>, j: Id)
    requires FreshIds(s)
    requires j in Run(st, s, steps).jobs
    requires j in s.jobs || j >= s.nextId
    ensures Attempts(Run(st, s, steps), j) == Attempts(s, j) + Entries(st, s, steps, j)
    decreases |steps|
  {
    if steps != [] {
      var s', rest := Next(st, s, steps[0]), steps[1..];
      NextIdGrows(st, s, steps[0]);
      if j < s'.nextId && j !in s'.jobs {
        SettledForever(st, s', rest, j);
      }
      AttemptCountIsEntries(st, s', rest, j);
      if j in s'.jobs {
        StepCountsAttempts(st, s, steps[0], j);
      }
    }
  }

  // ----- crashes of a storing attempt

  ghost predicate Rewrites(step: Step, d: Id) {
    (step.Reindex? || step.Delete?) && step.document == d
  }

  lemma UnacceptedIsIgnored(st: Settings, s: State, delivery: Delivery, env: Environment, upto: nat)
    requires !Accepts(s, delivery)
    ensures Next(st, s, Attempt(delivery, env, upto)) == s
  {
  }

  lemma NotAcceptedWithoutActiveJob(s: State, delivery: Delivery)
    requires NoActiveJob(s, delivery.document)
    ensures !Accepts(s, delivery)
  {
    assert JobOf(s, delivery.document, delivery.job) ==> !Active(s.jobs[delivery.job]);
  }

  lemma SameKeepsNoActiveJob(s: State, s': State, d: Id)
    requires SameDocument(s, s', d) && NoActiveJob(s, d)
    ensures NoActiveJob(s', d)
  {
    forall j | JobOf(s', d, j)
      ensures !Active(s'.jobs[j])
    {
      assert JobOf(s, d, j);
    }
  }

  /** Without an active job, only a re-index or a deletion changes a document. */
  lemma QuiescentStep(st: Settings, s: State, step: Step, d: Id)
    requires WellReferenced(s) && d in s.documents && NoActiveJob(s, d) && !Rewrites(step, d)
    ensures SameDocument(s, Next(st, s, step), d) && NoActiveJob(Next(st, s, step), d)
  {
    if step.Attempt? && step.delivery.document == d {
      NotAcceptedWithoutActiveJob(s, step.delivery);
      UnacceptedIsIgnored(st, s, step.delivery, step.env, step.upto);
    } else {
      StepIsIsolated(st, s, step, d);
      SameKeepsNoActiveJob(s, Next(st, s, step), d);
    }
  }

  lemma {:induction false} QuiescentRun(st: Settings, s: State, steps: seq<Step>, d: Id)
    requires WellReferenced(s) && d in s.documents && NoActiveJob(s, d)
    requires forall i :: 0 <= i < |steps| ==> !Rewrites(steps[i], d)
    ensures var s' := Run(st, s, steps);
      d in s'.documents && s'.documents[d] == s.documents[d] && ChunksOf(s', d) == ChunksOf(s, d)
    decreases |steps|
  {
    if steps != [] {
      QuiescentStep(st, s, steps[0], d);
      StepKeepsReferences(st, s, steps[0]);
      QuiescentRun(st, Next(st, s, steps[0]), steps[1..], d);
    }
  }

  ghost predicate StoresIn(st: Settings, s: State, delivery: Delivery, env: Environment)
    requires Accepts(s, delivery)
  {
    st.work(s.documents[delivery.document].rowError, env).Store?
  }

  lemma CompletedLeavesNoActiveJob(s: State, delivery: Delivery, list: seq<EmbeddedChunk>)
    requires OneActive(s, delivery.document) && Accepts(s, delivery)
    ensures var j, d := delivery.job, delivery.document;
      var s3 := StoreChunks(s, d, j, list);
      NoActiveJob(SetJob(s3, j, s3.jobs[j].(status := Completed)), d)
  {
    var j, d := delivery.job, delivery.document;
    var s3 := StoreChunks(s, d, j, list);
    var s4 := SetJob(s3, j, s3.jobs[j].(status := Completed));
    assert JobOf(s, d, j);
    forall k | JobOf(s4, d, k)
      ensures !Active(s4.jobs[k])
    {
      assert JobOf(s, d, k);
    }
  }

  /** What a storing attempt leaves when it dies between the commit of the job and that of the document. */
  lemma CrashAfterJobCommit(st: Settings, s: State, delivery: Delivery, env: Environment)
    requires WellReferenced(s) && OneActive(s, delivery.document)
    requires Accepts(s, delivery) && StoresIn(st, s, delivery, env)
    ensures var d, s4 := delivery.document, Next(st, s, Attempt(delivery, env, 4));
      && WellReferenced(s4) && Found(s4, delivery.workspace, d) && NoActiveJob(s4, d)
      && s4.documents[d].status == Processing
      && ChunksOf(s4, d) == st.work(s.documents[d].rowError, env).chunks
  {
    var list := st.work(s.documents[delivery.document].rowError, env).chunks;
    var s2 := SetStatus(Begin(s, delivery), delivery.document, Processing);
    StepKeepsReferences(st, s, Attempt(delivery, env, 4));
    BegunOneActive(s, delivery);
    CompletedLeavesNoActiveJob(s2, delivery, list);
    FourthState(st, s, delivery, list);
  }

  lemma BegunOneActive(s: State, delivery: Delivery)
    requires OneActive(s, delivery.document) && Accepts(s, delivery)
    ensures var s2 := SetStatus(Begin(s, delivery), delivery.document, Processing);
      OneActive(s2, delivery.document) && Accepts(s2, delivery)
  {
    var d, s2 := delivery.document, SetStatus(Begin(s, delivery), delivery.document, Processing);
    assert forall j: Id :: JobOf(s2, d, j) ==> JobOf(s, d, j) && (Active(s2.jobs[j]) <==> Active(s.jobs[j]));
  }

  lemma FourthState(st: Settings, s: State, delivery: Delivery, list: seq<EmbeddedChunk>)
    requires Accepts(s, delivery)
    ensures
      var j, d := delivery.job, delivery.document;
      var s3 := StoreChunks(SetStatus(Begin(s, delivery), d, Processing), d, j, list);
      At(VerdictTrace(st.exhaustionHandled, s, delivery, Verdict.Store(list)), 4)
      == SetJob(s3, j, s3.jobs[j].(status := Completed))
  {
  }

  /**
   A worker that dies between the commit of the job and the commit of the document leaves a
   document that holds its finished chunks and is never indexed: no run without a re-index or a
   deletion of that document moves it.
   */
  lemma CrashBeforeIndexedIsForever(st: Settings, s: State, delivery: Delivery, env: Environment, steps: seq<Step>)
    requires WellReferenced(s) && OneActive(s, delivery.document)
    requires Accepts(s, delivery) && StoresIn(st, s, delivery, env)
    requires forall i :: 0 <= i < |steps| ==> !Rewrites(steps[i], delivery.document)
    ensures var d, s' := delivery.document, Run(st, Next(st, s, Attempt(delivery, env, 4)), steps);
      && d in s'.documents && s'.documents[d].status == Processing
      && ChunksOf(s', d) == st.work(s.documents[d].rowError, env).chunks
  {
    CrashAfterJobCommit(st, s, delivery, env);
    QuiescentRun(st, Next(st, s, Attempt(delivery, env, 4)), steps, delivery.document);
  }

  /**
   Redelivery after a crash repairs a storing attempt exactly when the crash was not in that
   one gap: the message, delivered again and processed whole, ends with an indexed document.
   */
  lemma RedeliveryRecoversExactly(st: Settings, s: State, delivery: Delivery, env: Environment, again: Environment,
      k: nat)
    requires Accepts(s, delivery)
    requires StoresIn(st, s, delivery, env) && StoresIn(st, s, delivery, again)
    ensures var d := delivery.document;
      var s' := Next(st, Next(st, s, Attempt(delivery, env, k)), Attempt(delivery, again, 5));
      d in s'.documents && (s'.documents[d].status == Indexed <==> k != 4)
  {
    var rowError := s.documents[delivery.document].rowError;
    var verdict, verdict' := st.work(rowError, env), st.work(rowError, again);
    CrashedTrace(st, s, delivery, verdict, k);
    var s1 := At(VerdictTrace(st.exhaustionHandled, s, delivery, verdict), k);
    if k <= 3 {
      WholeTrace(st, s1, delivery, verdict');
    }
  }

  lemma CrashedTrace(st: Settings, s: State, delivery: Delivery, verdict: Verdict, k: nat)
    requires Accepts(s, delivery) && verdict.Store?
    ensures var s1 := At(VerdictTrace(st.exhaustionHandled, s, delivery, verdict), k);
      && (Accepts(s1, delivery) <==> k <= 3)
      && delivery.document in s1.documents
      && s1.documents[delivery.document].rowError == s.documents[delivery.document].rowError
      && (k == 4 ==> s1.documents[delivery.document].status == Processing)
      && (k >= 5 ==> s1.documents[delivery.document].status == Indexed)
  {
  }

  lemma WholeTrace(st: Settings, s: State, delivery: Delivery, verdict: Verdict)
    requires Accepts(s, delivery) && verdict.Store?
    ensures var s' := At(VerdictTrace(st.exhaustionHandled, s, delivery, verdict), 5);
      delivery.document in s'.documents && s'.documents[delivery.document].status == Indexed
  {
  }

  // ----- requests carried out whole

  /** A storing attempt that runs to its end. */
  lemma StoringAttemptIndexes(st: Settings, s: State, delivery: Delivery, env: Environment)
    requires Accepts(s, delivery) && StoresIn(st, s, delivery, env)
    ensures var d, s' := delivery.document, Next(st, s, Attempt(delivery, env, 5));
      && d in s'.documents && s'.documents[d].status == Indexed
      && ChunksOf(s', d) == st.work(s.documents[d].rowError, env).chunks
  {
    WholeTrace(st, s, delivery, st.work(s.documents[delivery.document].rowError, env));
  }

  /** An upload queues a message that the worker accepts, and one storing attempt on it indexes the document. */
  lemma UploadThenAttempt(st: Settings, s: State, w: Id, rowError: Option<string>, env: Environment)
    requires WellReferenced(s) && st.work(rowError, env).Store?
    ensures
      var d, s1 := s.nextId, Next(st, s, Upload(w, rowError, 3));
      var delivery := Delivery(s.nextId + 1, w, d, 0);
      var s' := Next(st, s1, Attempt(delivery, env, 5));
      && delivery in s1.sent && Accepts(s1, delivery)
      && d !in s.documents && d in s'.documents && s'.documents[d].status == Indexed
      && ChunksOf(s', d) == st.work(rowError, env).chunks
  {
    StoringAttemptIndexes(st, Next(st, s, Upload(w, rowError, 3)), Delivery(s.nextId + 1, w, s.nextId, 0), env);
  }

  /** A re-index that is not refused queues such a message too, and the next storing attempt replaces all chunks. */
  lemma ReindexThenAttempt(st: Settings, s: State, w: Id, d: Id, env: Environment)
    requires Found(s, w, d) && !InProgress(s.jobs, w, d) && st.work(s.documents[d].rowError, env).Store?
    ensures
      var s1 := Next(st, s, Reindex(w, d, 4));
      var delivery := Delivery(s.nextId, w, d, 0);
      var s' := Next(st, s1, Attempt(delivery, env, 5));
      && delivery in s1.sent && Accepts(s1, delivery)
      && ChunksOf(s1, d) == [] && s1.documents[d].status == Processing
      && d in s'.documents && s'.documents[d].status == Indexed
      && ChunksOf(s', d) == st.work(s.documents[d].rowError, env).chunks
  {
    StoringAttemptIndexes(st, Next(st, s, Reindex(w, d, 4)), Delivery(s.nextId, w, d, 0), env);
  }

  // ----- what whole requests write

  /** An upload adds an uploaded document and a pending job for it, and sends the message for the two; nothing else. */
  lemma UploadExactly(st: Settings, s: State, w: Id, rowError: Option<string>)
    requires WellReferenced(s)
    ensures
      var s' := Next(st, s, Upload(w, rowError, 3));
      var d, j := s.nextId, s.nextId + 1;
      && s'.documents == s.documents[d := Document(w, Uploaded, rowError)]
      && s'.jobs == s.jobs[j := Job(w, d, Pending, 0, None)]
      && s'.chunks == s.chunks && s'.produced == s.produced
      && s'.sent == s.sent + {Delivery(j, w, d, 0)} && s'.nextId == s.nextId + 2
      && d !in s.documents && j !in s.jobs
  {
  }

  /** Some job of the document is waiting or running. */
  ghost predicate HasActiveJob(s: State, d: Id) {
    exists j :: JobOf(s, d, j) && Active(s.jobs[j])
  }

  /** Jobs of a document have its workspace, and an active one is the newest: so the guard sees every active job. */
  lemma InProgressExactly(s: State, w: Id, d: Id)
    requires WellReferenced(s) && Found(s, w, d) && OneActive(s, d)
    ensures InProgress(s.jobs, w, d) <==> HasActiveJob(s, d)
  {
    forall j | JobOf(s, d, j) && Active(s.jobs[j])
      ensures Newest(s.jobs, w, d, j)
    {
      assert forall k :: k in s.jobs && s.jobs[k].document == d ==> JobOf(s, d, k);
    }
    if j :| j in s.jobs && Newest(s.jobs, w, d, j) && Active(s.jobs[j]) {
      assert JobOf(s, d, j);
    }
  }

  /** A re-index is refused exactly for a missing document or one with an active job; otherwise it starts it over. */
  lemma ReindexExactly(st: Settings, s: State, w: Id, d: Id)
    requires WellReferenced(s) && OneActive(s, d)
    ensures
      var s', j := Next(st, s, Reindex(w, d, 4)), s.nextId;
      if Found(s, w, d) && !HasActiveJob(s, d) then
        && s'.documents == s.documents[d := s.documents[d].(status := Processing)]
        && s'.jobs == s.jobs[j := Job(w, d, Pending, 0, None)]
        && s'.chunks == s.chunks - {d} && s'.produced == s.produced
        && s'.sent == s.sent + {Delivery(j, w, d, 0)} && s'.nextId == s.nextId + 1
      else s' == s
  {
    if Found(s, w, d) {
      InProgressExactly(s, w, d);
    }
  }

  /** A deletion takes the document, its chunks and all its jobs, active or not, and nothing else. */
  lemma DeleteExactly(st: Settings, s: State, w: Id, d: Id)
    requires WellReferenced(s)
    ensures
      var s' := Next(st, s, Delete(w, d, 3));
      if Found(s, w, d) then
        && s'.documents == s.documents - {d} && s'.chunks == s.chunks - {d}
        && (forall j :: j in s'.jobs <==> j in s.jobs && s.jobs[j].document != d)
        && (forall j :: j in s'.jobs ==> s'.jobs[j] == s.jobs[j])
        && s'.sent == s.sent && s'.nextId == s.nextId && s'.produced == s.produced
      else s' == s
  {
  }

  lemma StepKeepsGone(st: Settings, s: State, step: Step, d: Id)
    requires d !in s.documents && d < s.nextId
    ensures d !in Next(st, s, step).documents && d < Next(st, s, step).nextId
  {
    NextIdGrows(st, s, step);
    if step.Attempt? && Accepts(s, step.delivery) {
      VerdictAddsNoDocument(st, s, step.delivery, st.work(s.documents[step.delivery.document].rowError, step.env),
        step.upto);
    }
  }

  lemma VerdictAddsNoDocument(st: Settings, s: State, delivery: Delivery, verdict: Verdict, k: nat)
    requires Accepts(s, delivery)
    ensures At(VerdictTrace(st.exhaustionHandled, s, delivery, verdict), k).documents.Keys == s.documents.Keys
  {
  }

  /** What is gone stays gone, with all its jobs and chunks, whatever messages about it are still delivered. */
  lemma {:induction false} GoneForever(st: Settings, s: State, steps: seq<Step>, d: Id)
    requires WellReferenced(s) && d !in s.documents && d < s.nextId
    ensures var s' := Run(st, s, steps);
      d !in s'.documents && d !in s'.chunks && forall j :: !JobOf(s', d, j)
    decreases |steps|
  {
    if steps != [] {
      StepKeepsReferences(st, s, steps[0]);
      StepKeepsGone(st, s, steps[0], d);
      GoneForever(st, Next(st, s, steps[0]), steps[1..], d);
    }
  }

  /** A deletion carried out whole removes the document, its jobs and its chunks for good. */
  lemma DeletionIsFinal(st: Settings, s: State, w: Id, d: Id, steps: seq<Step>)
    requires WellReferenced(s) && Found(s, w, d)
    ensures var s' := Run(st, Next(st, s, Delete(w, d, 3)), steps);
      d !in s'.documents && d !in s'.chunks && forall j :: !JobOf(s', d, j)
  {
    StepKeepsReferences(st, s, Delete(w, d, 3));
    GoneForever(st, Next(st, s, Delete(w, d, 3)), steps, d);
  }

  // ----- retries

  /** Seconds before the next attempt: exponential, capped. */
  function RetryCountdown(retriesSoFar: int): nat {
    var delay := Power2(if retriesSoFar > 0 then retriesSoFar else 0);
    if delay < 60 then delay else 60
  }

  function Power2(n: nat): nat {
    if n == 0 then 1 else 2 * Power2(n - 1)
  }

  lemma {:induction false} Power2Grows(m: nat, n: nat)
    requires m <= n
    ensures 1 <= Power2(m) <= Power2(n)
    decreases n
  {
    if m < n {
      Power2Grows(m, n - 1);
    } else if m > 0 {
      Power2Grows(m - 1, n - 1);
    }
  }

  lemma CountdownNeverShrinks(m: int, n: int)
    requires m <= n
    ensures 1 <= RetryCountdown(m) <= RetryCountdown(n) <= 60
    ensures RetryCountdown(n) == 60 <==> n >= 6
    ensures n <= 0 ==> RetryCountdown(n) == 1
    ensures 0 <= n < 5 ==> RetryCountdown(n + 1) == 2 * RetryCountdown(n)
  {
    Power2Grows(if m > 0 then m else 0, if n > 0 then n else 0);
    assert Power2(5) == 32 && Power2(6) == 64;
    if n >= 6 {
      Power2Grows(6, n);
    } else {
      Power2Grows(if n > 0 then n else 0, 5);
    }
  }

  /**
   An attempt and, as long as each asks to be retried, the attempts that its retries deliver;
   nothing crashes, and every attempt meets its own environment.
   */
  ghost function RetryChain(st: Settings, s: State, delivery: Delivery, envs: seq<Environment>): State
    decreases |envs|
  {
    if envs == [] then s
    else
      var s' := Next(st, s, Attempt(delivery, envs[0], 5));
      if delivery.retries < INGESTION_MAX_RETRIES then
        RetryChain(st, s', delivery.(retries := delivery.retries + 1), envs[1..])
      else s'
  }

  ghost predicate AllRetry(st: Settings, rowError: Option<string>, envs: seq<Environment>)
  {
    forall i :: 0 <= i < |envs| ==> st.work(rowError, envs[i]).Retry?
  }

  lemma OneAttempt(st: Settings, s: State, delivery: Delivery, verdict: Verdict)
    requires Accepts(s, delivery)
    ensures var s' := At(VerdictTrace(st.exhaustionHandled, s, delivery, verdict), 5);
      && delivery.job in s'.jobs && delivery.document in s'.documents
      && s'.documents[delivery.document].rowError == s.documents[delivery.document].rowError
      && s'.jobs[delivery.job].attempts == s.jobs[delivery.job].attempts + 1
      && (Active(s'.jobs[delivery.job]) <==> Accepts(s', delivery))
      && (Active(s'.jobs[delivery.job]) <==>
          verdict.Retry? && (delivery.retries < INGESTION_MAX_RETRIES || !st.exhaustionHandled))
  {
  }

  lemma {:induction false} ChainOfSettledJob(st: Settings, s: State, delivery: Delivery, envs: seq<Environment>)
    requires delivery.job in s.jobs && !Active(s.jobs[delivery.job])
    ensures RetryChain(st, s, delivery, envs) == s
    decreases |envs|
  {
    if envs != [] && delivery.retries < INGESTION_MAX_RETRIES {
      ChainOfSettledJob(st, s, delivery.(retries := delivery.retries + 1), envs[1..]);
    }
  }

  /**
   Without crashes a job is terminal after at most 1 + INGESTION_MAX_RETRIES attempts if and
   only if one of them ends otherwise than in a retry, or giving up reaches its handler.
   */
  lemma {:induction false} RetriesEndExactly(st: Settings, s: State, delivery: Delivery, envs: seq<Environment>)
    requires Accepts(s, delivery)
    requires delivery.retries <= INGESTION_MAX_RETRIES && |envs| == 1 + INGESTION_MAX_RETRIES - delivery.retries
    ensures var s', j := RetryChain(st, s, delivery, envs), delivery.job;
      && j in s'.jobs
      && (!Active(s'.jobs[j]) <==> st.exhaustionHandled || !AllRetry(st, s.documents[delivery.document].rowError, envs))
      && s.jobs[j].attempts < s'.jobs[j].attempts <= s.jobs[j].attempts + |envs|
    decreases |envs|
  {
    var rowError := s.documents[delivery.document].rowError;
    var verdict := st.work(rowError, envs[0]);
    var s' := Next(st, s, Attempt(delivery, envs[0], 5));
    OneAttempt(st, s, delivery, verdict);
    assert s' == At(VerdictTrace(st.exhaustionHandled, s, delivery, verdict), 5);
    if delivery.retries < INGESTION_MAX_RETRIES {
      var retry := delivery.(retries := delivery.retries + 1);
      if verdict.Retry? {
        assert Accepts(s', retry);
        RetriesEndExactly(st, s', retry, envs[1..]);
        assert AllRetry(st, rowError, envs) <==> AllRetry(st, rowError, envs[1..]) by {
          assert forall i :: 1 <= i < |envs| ==> envs[i] == envs[1..][i - 1];
        }
      } else {
        ChainOfSettledJob(st, s', retry, envs[1..]);
      }
    }
  }

  // ----- what the re-index guard does not cover

  lemma ActiveMeansInProgress(s: State, delivery: Delivery)
    requires WellReferenced(s) && OneActive(s, delivery.document) && Accepts(s, delivery)
    ensures InProgress(s.jobs, delivery.workspace, delivery.document)
  {
    var d := delivery.document;
    assert JobOf(s, d, delivery.job);
    assert forall k :: k in s.jobs && s.jobs[k].document == d ==> JobOf(s, d, k);
    assert Newest(s.jobs, delivery.workspace, d, delivery.job);
  }

  lemma IdleMeansNotInProgress(s: State, w: Id, d: Id)
    requires NoActiveJob(s, d)
    ensures !InProgress(s.jobs, w, d)
  {
    assert forall j :: Newest(s.jobs, w, d, j) ==> JobOf(s, d, j);
  }

  lemma AttemptKeepsOneActive(exhaustionHandled: bool, s: State, delivery: Delivery, verdict: Verdict, k: nat)
    requires OneActive(s, delivery.document) && Accepts(s, delivery) && verdict.Store? && k <= 3
    ensures var s' := At(VerdictTrace(exhaustionHandled, s, delivery, verdict), k);
      OneActive(s', delivery.document) && Accepts(s', delivery)
  {
    var d, s' := delivery.document, At(VerdictTrace(exhaustionHandled, s, delivery, verdict), k);
    assert forall j: Id :: JobOf(s', d, j) ==> JobOf(s, d, j) && (Active(s'.jobs[j]) <==> Active(s.jobs[j]));
  }

  /**
   After `k` commits of a storing attempt, the guard of a re-index refuses it if and only if the
   job is not completed yet.
   */
  lemma GuardExactly(st: Settings, s: State, delivery: Delivery, env: Environment, k: nat)
    requires WellReferenced(s) && OneActive(s, delivery.document)
    requires Accepts(s, delivery) && StoresIn(st, s, delivery, env)
    ensures InProgress(Next(st, s, Attempt(delivery, env, k)).jobs, delivery.workspace, delivery.document) <==> k <= 3
  {
    var w, d := delivery.workspace, delivery.document;
    var verdict := st.work(s.documents[d].rowError, env);
    if k <= 3 {
      StepKeepsReferences(st, s, Attempt(delivery, env, k));
      AttemptKeepsOneActive(st.exhaustionHandled, s, delivery, verdict, k);
      ActiveMeansInProgress(Next(st, s, Attempt(delivery, env, k)), delivery);
    } else {
      CrashAfterJobCommit(st, s, delivery, env);
      LastCommits(st, s, delivery, verdict, k);
      IdleMeansNotInProgress(Next(st, s, Attempt(delivery, env, 4)), w, d);
    }
  }

  lemma LastCommits(st: Settings, s: State, delivery: Delivery, verdict: Verdict, k: nat)
    requires Accepts(s, delivery) && verdict.Store? && k >= 4
    ensures var t := VerdictTrace(st.exhaustionHandled, s, delivery, verdict);
      && At(t, k).jobs == At(t, 4).jobs
      && delivery.document in At(t, 4).documents && At(t, 5) == SetStatus(At(t, 4), delivery.document, Indexed)
  {
  }

  lemma StoringKeeps(st: Settings, s: State, delivery: Delivery, env: Environment)
    requires ValidSettings(st) && Inv(s) && Accepts(s, delivery) && StoresIn(st, s, delivery, env)
    ensures Inv(Next(st, s, Attempt(delivery, env, 4))) && Inv(Next(st, s, Attempt(delivery, env, 5)))
  {
    var list := st.work(s.documents[delivery.document].rowError, env).chunks;
    BeginKeeps(s, delivery);
    CompleteKeeps(SetStatus(Begin(s, delivery), delivery.document, Processing), delivery, list);
    FourthState(st, s, delivery, list);
    LastCommits(st, s, delivery, Verdict.Store(list), 4);
  }

  /**
   A re-index of `u` commits comes between the last two commits of a storing attempt, where its
   guard lets it through.  The last commit of the attempt then ends in the invariant if and only
   if the re-index had not begun, or had not yet added its job and nothing was embedded.
   */
  lemma OverlapExactly(st: Settings, s: State, delivery: Delivery, env: Environment, u: nat)
    requires ValidSettings(st) && Inv(s) && Accepts(s, delivery) && StoresIn(st, s, delivery, env)
    ensures
      var d, w := delivery.document, delivery.workspace;
      var s' := Next(st, Next(st, s, Attempt(delivery, env, 4)), Reindex(w, d, u));
      && d in s'.documents
      && (Inv(SetStatus(s', d, Indexed)) <==>
          u == 0 || (u <= 2 && st.work(s.documents[d].rowError, env).chunks == []))
  {
    var d, w := delivery.document, delivery.workspace;
    var s4 := Next(st, s, Attempt(delivery, env, 4));
    assert DocumentOk(s, d);
    CrashAfterJobCommit(st, s, delivery, env);
    IdleMeansNotInProgress(s4, w, d);
    StoringKeeps(st, s, delivery, env);
    LastCommits(st, s, delivery, st.work(s.documents[d].rowError, env), 4);
    ReindexedThenMarked(s4, w, d, u);
  }

  lemma ReindexedThenMarked(s: State, w: Id, d: Id, u: nat)
    requires Inv(s) && Found(s, w, d) && NoActiveJob(s, d) && !InProgress(s.jobs, w, d)
    requires Inv(SetStatus(s, d, Indexed))
    ensures var s' := At(ReindexTrace(s, w, d), u);
      d in s'.documents && (Inv(SetStatus(s', d, Indexed)) <==> u == 0 || (u <= 2 && ChunksOf(s, d) == []))
  {
    if u == 1 || u == 2 {
      ClearedThenMarked(s, d);
      ClearChunksExact(SetStatus(s, d, Indexed), d);
    } else if u >= 3 {
      JobThenMarked(s, w, d, u);
    }
  }

  lemma ClearedThenMarked(s: State, d: Id)
    requires d in s.documents
    ensures var marked := ClearChunks(SetStatus(s, d, Indexed), d);
      && SetStatus(ClearChunks(s, d), d, Indexed) == marked
      && SetStatus(SetStatus(ClearChunks(s, d), d, Processing), d, Indexed) == marked
  {
  }

  /** Once the re-index has added its job, that job is the newest, and it is not completed. */
  lemma JobThenMarked(s: State, w: Id, d: Id, u: nat)
    requires Inv(s) && Found(s, w, d) && !InProgress(s.jobs, w, d) && u >= 3
    ensures var s' := At(ReindexTrace(s, w, d), u);
      d in s'.documents && !Inv(SetStatus(s', d, Indexed))
  {
    var s' := At(ReindexTrace(s, w, d), u);
    assert Newest(s'.jobs, w, d, s.nextId);
    var marked := SetStatus(s', d, Indexed);
    assert Newest(marked.jobs, w, d, s.nextId) && marked.jobs[s.nextId].status == Pending;
    assert !DocumentOk(marked, d) by {
      forall j | Newest(marked.jobs, w, d, j)
        ensures j == s.nextId
      {
        NewestIsUnique(marked, w, d, j, s.nextId);
      }
    }
  }

  /** What comes of it when the re-index is through: a document marked indexed without chunks, and a pending job. */
  lemma OverlappingReindexIsNotRefused(st: Settings, s: State, delivery: Delivery, env: Environment)
    requires ValidSettings(st) && Inv(s) && Accepts(s, delivery) && StoresIn(st, s, delivery, env)
    ensures
      var d, w := delivery.document, delivery.workspace;
      var s4 := Next(st, s, Attempt(delivery, env, 4));
      var s' := Next(st, s4, Reindex(w, d, 4));
      && s' != s4 && d in s'.documents
      && Inv(s') && !Inv(SetStatus(s', d, Indexed)) && ChunksOf(s', d) == []
  {
    var d, w := delivery.document, delivery.workspace;
    var s4 := Next(st, s, Attempt(delivery, env, 4));
    assert DocumentOk(s, d);
    CrashAfterJobCommit(st, s, delivery, env);
    IdleMeansNotInProgress(s4, w, d);
    StoringKeeps(st, s, delivery, env);
    StepKeepsInvariantExactly(st, s4, Reindex(w, d, 4));
    OverlapExactly(st, s, delivery, env, 4);
    assert s.nextId == s4.nextId && s4.nextId < Next(st, s4, Reindex(w, d, 4)).nextId;
  }
}
