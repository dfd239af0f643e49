/**
 Operations on different documents whose commits interleave freely: one operation may be under
 way on each document, and between any two of its commits those of others may happen.

 The commits are those of the protocol; what an operation still has to do is its `Flight`.
 */
module IngestionInterleaving {
  import opened Wrappers
  import opened Embeddings
  import opened Ingestion
  import opened IngestionInvariant
  import opened IngestionMask
  import opened IngestionRuns

  /**
   What comes next for a document whose operation is under way.  `hadChunks` remembers whether
   clearing took any chunks away.
   */
  datatype Flight =
    | NeedsJob
    | NeedsMessage(job: Id)
    | ReindexCleared(hadChunks: bool)
    | DeleteCleared(hadChunks: bool)
    | DeleteDropped
    | Started(delivery: Delivery, verdict: Verdict)
    | Working(delivery: Delivery, verdict: Verdict)
    | ChunksStored(delivery: Delivery)
    | JobCompleted(delivery: Delivery)

  /** `torn` are the documents that a dead request has left marked indexed without what they serve. */
  datatype System = System(store: State, flights: map<Id, Flight>, torn: set<Id>)

  /** A move is one commit, the first of an operation or the next of one under way, or a death. */
  datatype Move =
    | BeginUpload(workspace: Id, rowError: Option<string>)
    | BeginReindex(workspace: Id, document: Id)
    | BeginDelete(workspace: Id, document: Id)
    | BeginAttempt(delivery: Delivery, env: Environment)
    | Commit(document: Id)
    | Die(document: Id)

  /** The rows that the next commit of an operation on `d` writes are there. */
  predicate CanAdvance(s: State, d: Id, flight: Flight) {
    && d in s.documents
    && (flight.Working? || flight.ChunksStored? ==> flight.delivery.document == d && Accepts(s, flight.delivery))
  }

  /** The next commit of an operation on `d`, and what is left of it then. */
  function Advance(exhaustionHandled: bool, s: State, d: Id, flight: Flight): (State, Option<Flight>)
    requires CanAdvance(s, d, flight)
  {
    var w := s.documents[d].workspace;
    match flight
    case NeedsJob => (AddJob(s, w, d), Some(NeedsMessage(s.nextId)))
    case NeedsMessage(j) => (Send(s, Delivery(j, w, d, 0)), None)
    case ReindexCleared(_) => (SetStatus(s, d, Processing), Some(NeedsJob))
    case DeleteCleared(_) => (DropJobs(s, w, d), Some(DeleteDropped))
    case DeleteDropped => (DropDocument(s, d), None)
    case Started(delivery, verdict) => (SetStatus(s, d, Processing), Some(Working(delivery, verdict)))
    case Working(delivery, verdict) => AfterWork(exhaustionHandled, s, delivery, verdict)
    case ChunksStored(delivery) =>
      (SetJob(s, delivery.job, s.jobs[delivery.job].(status := Completed)), Some(JobCompleted(delivery)))
    case JobCompleted(_) => (SetStatus(s, d, Indexed), None)
  }

  /** The first commit after the work of an attempt. */
  function AfterWork(exhaustionHandled: bool, s: State, delivery: Delivery, verdict: Verdict): (State, Option<Flight>)
    requires Accepts(s, delivery)
  {
    match verdict
    case Fail(message) => (FailBoth(s, delivery.document, delivery.job, message), None)
    case Retry(message) =>
      if delivery.retries < INGESTION_MAX_RETRIES then (Send(s, delivery.(retries := delivery.retries + 1)), None)
      else if exhaustionHandled then (FailBoth(s, delivery.document, delivery.job, message), None)
      else (s, None)
    case Store(list) => (StoreChunks(s, delivery.document, delivery.job, list), Some(ChunksStored(delivery)))
  }

  // ----- what holds of a document whose operation is under way

  ghost predicate NoJob(s: State, d: Id) {
    forall j :: !JobOf(s, d, j)
  }

  /** If the document is still marked indexed, its newest job embedded chunks exactly when some were cleared. */
  ghost predicate Emptied(s: State, d: Id, hadChunks: bool)
    requires d in s.documents
  {
    s.documents[d].status == Indexed ==>
      exists j ::
        && Newest(s.jobs, s.documents[d].workspace, d, j) && s.jobs[j].status == Completed
        && j in s.produced && (s.produced[j] != [] <==> hadChunks)
  }

  ghost predicate FlightOk(s: State, d: Id, flight: Flight) {
    && d in s.documents
    && match flight
       case NeedsJob => NotIndexed(s, d) && NoActiveJob(s, d)
       case NeedsMessage(j) => j < s.nextId
       case ReindexCleared(_) => d !in s.chunks && NoActiveJob(s, d)
       case DeleteCleared(_) => d !in s.chunks
       case DeleteDropped => d !in s.chunks && NoJob(s, d)
       case Started(delivery, verdict) => AttemptOk(s, d, delivery, verdict)
       case Working(delivery, verdict) => AttemptOk(s, d, delivery, verdict)
       case ChunksStored(delivery) =>
         && delivery.document == d && Accepts(s, delivery)
         && delivery.job in s.produced && ChunksOf(s, d) == s.produced[delivery.job]
       case JobCompleted(delivery) => NotIndexed(s, d) && Served(s, d)
  }

  /** Only a re-index or a deletion may be under way on a torn document, and what it cleared otherwise is known. */
  ghost predicate TornOk(s: State, torn: set<Id>, d: Id, flight: Flight) {
    if d in torn then Loose(flight)
    else (flight.ReindexCleared? || flight.DeleteCleared?) && d in s.documents ==> Emptied(s, d, flight.hadChunks)
  }

  ghost predicate AttemptOk(s: State, d: Id, delivery: Delivery, verdict: Verdict) {
    && delivery.document == d && Accepts(s, delivery) && delivery.retries <= INGESTION_MAX_RETRIES
    && (verdict.Store? ==> Contiguous(verdict.chunks))
  }

  /** Between clearing the chunks of a document and the next commit on its row. */
  predicate Loose(flight: Flight) {
    flight.ReindexCleared? || flight.DeleteCleared? || flight.DeleteDropped?
  }

  predicate IsLoose(flights: map<Id, Flight>, d: Id) {
    d in flights && Loose(flights[d])
  }

  /** The documents whose mark may say more than is stored. */
  function Hidden(sys: System): set<Id> {
    sys.torn + set d | d in sys.flights && Loose(sys.flights[d])
  }

  function Masked(sys: System): State {
    Mask(sys.store, Hidden(sys))
  }

  /**
   The invariant of the protocol for everything that is not hidden, what each operation relies
   on, and what torn documents have lost.
   */
  ghost predicate SystemInv(sys: System) {
    && Inv(Masked(sys))
    && (forall d :: d in sys.flights ==>
        FlightOk(sys.store, d, sys.flights[d]) && TornOk(sys.store, sys.torn, d, sys.flights[d]))
    && (forall d :: d in sys.torn ==> Lost(sys.store, d))
  }

  /** The commits on the row of a document that is torn or loose. */
  predicate Heals(flight: Flight) {
    flight.ReindexCleared? || flight.DeleteDropped?
  }

  /** A move; one on a document whose operation is under way, or that finds nothing to do, changes nothing. */
  function Apply(st: Settings, sys: System, move: Move): System {
    var s, flights, torn := sys.store, sys.flights, sys.torn;
    match move
    case BeginUpload(w, rowError) =>
      System(AddDocument(s, Document(w, Uploaded, rowError)), flights[s.nextId := NeedsJob], torn)
    case BeginReindex(w, d) =>
      if d in flights || !Found(s, w, d) || InProgress(s.jobs, w, d) then sys
      else System(ClearChunks(s, d), flights[d := ReindexCleared(ChunksOf(s, d) != [])], torn)
    case BeginDelete(w, d) =>
      if d in flights || !Found(s, w, d) then sys
      else System(ClearChunks(s, d), flights[d := DeleteCleared(ChunksOf(s, d) != [])], torn)
    case BeginAttempt(delivery, env) =>
      if delivery.document in flights || !Accepts(s, delivery) then sys
      else
        var verdict := st.work(s.documents[delivery.document].rowError, env);
        System(Begin(s, delivery), flights[delivery.document := Started(delivery, verdict)], torn)
    case Commit(d) =>
      if d !in flights || !CanAdvance(s, d, flights[d]) then sys
      else
        var next := Advance(st.exhaustionHandled, s, d, flights[d]);
        System(next.0, if next.1.Some? then flights[d := next.1.value] else flights - {d},
          if Heals(flights[d]) then torn - {d} else torn)
    case Die(d) => System(s, flights - {d}, if TornDeath(sys, d) then torn + {d} else torn)
  }

  /** The request on `d` dies where the document, still marked indexed, has lost what it serves. */
  predicate TornDeath(sys: System, d: Id) {
    && IsLoose(sys.flights, d) && d !in sys.torn && d in sys.store.documents
    && sys.store.documents[d].status == Indexed
    && (sys.flights[d].DeleteDropped? || sys.flights[d].hadChunks)
  }

  ghost predicate MoveEnabled(sys: System, move: Move) {
    move.BeginAttempt? ==> move.delivery in sys.store.sent
  }

  // ----- what is hidden

  /** A move on `x` that leaves it as loose, and as torn, as it was. */
  lemma HiddenSame(sys: System, sys': System, x: Id)
    requires sys'.flights - {x} == sys.flights - {x} && sys'.torn == sys.torn
    requires IsLoose(sys'.flights, x) <==> IsLoose(sys.flights, x)
    ensures Hidden(sys') == Hidden(sys)
  {
    forall d
      ensures d in Hidden(sys') <==> d in Hidden(sys)
    {
      LooseElsewhere(sys, sys', x, d);
    }
  }

  lemma LooseElsewhere(sys: System, sys': System, x: Id, d: Id)
    requires sys'.flights - {x} == sys.flights - {x}
    ensures d != x ==> (IsLoose(sys'.flights, d) <==> IsLoose(sys.flights, d))
  {
    if d != x {
      assert d in sys.flights <==> d in sys.flights - {x};
      assert d in sys'.flights <==> d in sys'.flights - {x};
      assert d in sys.flights && d in sys'.flights ==>
        sys'.flights[d] == (sys'.flights - {x})[d] == (sys.flights - {x})[d] == sys.flights[d];
    }
  }

  /** A move after which `x` is neither loose nor torn. */
  lemma HiddenLess(sys: System, sys': System, x: Id)
    requires sys'.flights - {x} == sys.flights - {x} && sys'.torn - {x} == sys.torn - {x}
    requires !IsLoose(sys'.flights, x) && x !in sys'.torn
    ensures Hidden(sys') == Hidden(sys) - {x}
  {
    forall d
      ensures d in Hidden(sys') <==> d in Hidden(sys) - {x}
    {
      LooseElsewhere(sys, sys', x, d);
      assert d != x ==> (d in sys'.torn <==> d in sys'.torn - {x}) && (d in sys.torn <==> d in sys.torn - {x});
    }
  }

  // ----- other documents

  ghost predicate OthersSame(s: State, s': State, x: Id) {
    && s.nextId <= s'.nextId && s'.chunks.Keys - {x} == s.chunks.Keys - {x}
    && forall d :: d != x && d in s.documents ==> SameDocument(s, s', d)
  }

  lemma JobIsLocal(s: State, x: Id, j: Id, row: Job)
    requires j in s.jobs && s.jobs[j].document == x && row.document == x
    ensures OthersSame(s, SetJob(s, j, row), x)
  {
  }

  lemma ChunksAreLocal(s: State, x: Id, j: Id, list: seq<EmbeddedChunk>)
    requires j in s.jobs && s.jobs[j].document == x
    ensures OthersSame(s, StoreChunks(s, x, j, list), x)
  {
  }

  lemma StatusIsLocal(s: State, x: Id, status: DocumentStatus)
    requires x in s.documents
    ensures OthersSame(s, SetStatus(s, x, status), x)
  {
  }

  lemma FailureIsLocal(s: State, x: Id, j: Id, message: string)
    requires x in s.documents && j in s.jobs && s.jobs[j].document == x
    ensures OthersSame(s, FailBoth(s, x, j, message), x)
  {
    var row := s.jobs[j].(status := JobFailed, error := Some(message));
    JobIsLocal(s, x, j, row);
    StatusIsLocal(SetJob(s, j, row), x, Failed);
    LocalTwice(s, SetJob(s, j, row), FailBoth(s, x, j, message), x);
  }

  lemma LocalTwice(s: State, s1: State, s2: State, x: Id)
    requires OthersSame(s, s1, x) && OthersSame(s1, s2, x)
    ensures OthersSame(s, s2, x)
  {
    forall d | d != x && d in s.documents
      ensures SameDocument(s, s2, d)
    {
      assert SameDocument(s, s1, d) && SameDocument(s1, s2, d);
      assert forall j: Id :: JobOf(s, d, j) ==> JobOf(s1, d, j) && JobOf(s2, d, j);
    }
  }

  lemma NewJobIsLocal(s: State, w: Id, x: Id)
    requires WellReferenced(s)
    ensures OthersSame(s, AddJob(s, w, x), x)
  {
  }

  lemma NewDocumentIsLocal(s: State, document: Document)
    ensures OthersSame(s, AddDocument(s, document), s.nextId)
  {
  }

  lemma MessageIsLocal(s: State, x: Id, delivery: Delivery)
    ensures OthersSame(s, Send(s, delivery), x)
  {
  }

  lemma ClearingIsLocal(s: State, x: Id)
    ensures OthersSame(s, ClearChunks(s, x), x)
  {
  }

  lemma DroppingJobsIsLocal(s: State, w: Id, x: Id)
    ensures OthersSame(s, DropJobs(s, w, x), x)
  {
  }

  lemma DroppingIsLocal(s: State, x: Id)
    ensures OthersSame(s, DropDocument(s, x), x)
  {
  }

  /** What an operation relies on is not touched by commits on other documents. */
  lemma FlightStays(s: State, s': State, d: Id, flight: Flight)
    requires SameDocument(s, s', d) && s.nextId <= s'.nextId && (d in s.chunks <==> d in s'.chunks)
    requires FlightOk(s, d, flight)
    ensures FlightOk(s', d, flight)
  {
    match flight
    case NeedsJob => SameKeepsNoActiveJob(s, s', d);
    case NeedsMessage(_) =>
    case ReindexCleared(_) => SameKeepsNoActiveJob(s, s', d);
    case DeleteCleared(_) =>
    case DeleteDropped => assert forall j :: !JobOf(s, d, j) ==> !JobOf(s', d, j);
    case Started(delivery, _) => assert JobOf(s, d, delivery.job) && JobOf(s', d, delivery.job);
    case Working(delivery, _) => assert JobOf(s, d, delivery.job) && JobOf(s', d, delivery.job);
    case ChunksStored(delivery) => assert JobOf(s, d, delivery.job) && JobOf(s', d, delivery.job);
    case JobCompleted(_) => SameKeepsServed(s, s', d);
  }

  lemma EmptiedStays(s: State, s': State, d: Id, hadChunks: bool)
    requires SameDocument(s, s', d) && d in s.documents && Emptied(s, d, hadChunks)
    ensures d in s'.documents && Emptied(s', d, hadChunks)
  {
    if s.documents[d].status == Indexed {
      var w := s.documents[d].workspace;
      var j :| Newest(s.jobs, w, d, j) && s.jobs[j].status == Completed && j in s.produced &&
        (s.produced[j] != [] <==> hadChunks);
      SameKeepsNewest(s, s', w, d, j);
      assert JobOf(s, d, j);
    }
  }

  /** What a move on `x` has to do right by `x` itself. */
  ghost predicate SubjectOk(sys: System, x: Id) {
    && (x in sys.flights ==>
        FlightOk(sys.store, x, sys.flights[x]) && TornOk(sys.store, sys.torn, x, sys.flights[x]))
    && (x in sys.torn ==> Lost(sys.store, x))
  }

  /** A move on `x` keeps the invariant if it keeps the masked one and does right by `x`. */
  lemma MoveOn(sys: System, sys': System, x: Id)
    requires SystemInv(sys) && Inv(Masked(sys')) && SubjectOk(sys', x)
    requires OthersSame(sys.store, sys'.store, x)
    requires sys'.flights - {x} == sys.flights - {x} && sys'.torn - {x} == sys.torn - {x}
    ensures SystemInv(sys')
  {
    forall d | d in sys'.flights
      ensures FlightOk(sys'.store, d, sys'.flights[d]) && TornOk(sys'.store, sys'.torn, d, sys'.flights[d])
    {
      if d != x {
        OtherFlight(sys, sys', x, d);
      }
    }
    forall d | d in sys'.torn
      ensures Lost(sys'.store, d)
    {
      if d != x {
        assert d in sys'.torn - {x} && d in sys.torn && Lost(sys.store, d);
        assert d in sys.store.chunks.Keys - {x} <==> d in sys'.store.chunks.Keys - {x};
        LostStays(sys.store, sys'.store, d);
      }
    }
  }

  lemma OtherFlight(sys: System, sys': System, x: Id, d: Id)
    requires SystemInv(sys) && OthersSame(sys.store, sys'.store, x) && d != x && d in sys'.flights
    requires sys'.flights - {x} == sys.flights - {x} && sys'.torn - {x} == sys.torn - {x}
    ensures FlightOk(sys'.store, d, sys'.flights[d]) && TornOk(sys'.store, sys'.torn, d, sys'.flights[d])
  {
    var s, s' := sys.store, sys'.store;
    assert d in sys'.flights - {x} && d in sys.flights && sys.flights[d] == sys'.flights[d];
    assert d in sys'.torn - {x} <==> d in sys.torn - {x};
    assert d in s.chunks.Keys - {x} <==> d in s'.chunks.Keys - {x};
    assert FlightOk(s, d, sys.flights[d]) && TornOk(s, sys.torn, d, sys.flights[d]);
    FlightStays(s, s', d, sys.flights[d]);
    if d !in sys.torn && (sys.flights[d].ReindexCleared? || sys.flights[d].DeleteCleared?) {
      EmptiedStays(s, s', d, sys.flights[d].hadChunks);
    }
  }

  /** A document with an active job, or with an operation that has written its row, is not torn. */
  lemma AcceptedIsNotTorn(sys: System, delivery: Delivery)
    requires SystemInv(sys) && Accepts(sys.store, delivery)
    ensures delivery.document !in sys.torn
  {
    var s, d := sys.store, delivery.document;
    if d in sys.torn {
      MaskedReferences(s, Hidden(sys));
      MaskedOneActive(s, Hidden(sys), d);
      LostIsIdle(s, d);
      NotAcceptedWithoutActiveJob(s, delivery);
    }
  }

  // ----- first commits

  lemma UploadBegins(st: Settings, sys: System, w: Id, rowError: Option<string>)
    requires SystemInv(sys)
    ensures SystemInv(Apply(st, sys, BeginUpload(w, rowError)))
  {
    var s, x, document := sys.store, sys.store.nextId, Document(w, Uploaded, rowError);
    var sys' := System(AddDocument(s, document), sys.flights[x := NeedsJob], sys.torn);
    MaskedReferences(s, Hidden(sys));
    AddDocumentKeeps(Masked(sys), w, rowError);
    FreshDocument(s, document);
    assert x !in sys.flights && x !in sys.torn;
    HiddenSame(sys, sys', x);
    MaskAdd(s, Hidden(sys), document);
    NewDocumentIsLocal(s, document);
    MoveOn(sys, sys', x);
  }

  lemma FreshDocument(s: State, document: Document)
    requires WellReferenced(s) && document.status == Uploaded
    ensures s.nextId !in s.documents && FlightOk(AddDocument(s, document), s.nextId, NeedsJob)
  {
    assert forall j: Id :: !JobOf(s, s.nextId, j) && !JobOf(AddDocument(s, document), s.nextId, j);
  }

  /** Clearing a document takes away exactly what its newest job embedded, if it is indexed and not torn. */
  lemma ClearedIsEmptied(sys: System, x: Id)
    requires SystemInv(sys) && x in sys.store.documents && x !in sys.flights && x !in sys.torn
    ensures Emptied(ClearChunks(sys.store, x), x, ChunksOf(sys.store, x) != [])
  {
    var s, m, w := sys.store, Masked(sys), sys.store.documents[x].workspace;
    MaskAgrees(s, Hidden(sys), x);
    if s.documents[x].status == Indexed {
      assert DocumentOk(m, x);
      var j :| Newest(m.jobs, w, x, j) && m.jobs[j].status == Completed && j in m.produced &&
        ChunksOf(m, x) == m.produced[j];
      assert Newest(ClearChunks(s, x).jobs, w, x, j);
    }
  }

  lemma ClearedIsLost(s: State, x: Id)
    requires Lost(s, x)
    ensures Lost(ClearChunks(s, x), x)
  {
    var w := s.documents[x].workspace;
    assert forall j :: Newest(ClearChunks(s, x).jobs, w, x, j) ==> Newest(s.jobs, w, x, j);
  }

  lemma ClearingKeeps(sys: System, x: Id, flight: Flight)
    requires SystemInv(sys) && x in sys.store.documents && x !in sys.flights
    requires flight.ReindexCleared? || flight.DeleteCleared?
    requires flight.hadChunks <==> ChunksOf(sys.store, x) != []
    requires FlightOk(ClearChunks(sys.store, x), x, flight)
    ensures SystemInv(System(ClearChunks(sys.store, x), sys.flights[x := flight], sys.torn))
  {
    var s, m := sys.store, Masked(sys);
    var sys' := System(ClearChunks(s, x), sys.flights[x := flight], sys.torn);
    assert DocumentOk(m, x);
    SetStatusKeeps(m, x, Processing);
    ClearChunksExact(SetStatus(m, x, Processing), x);
    MaskClear(s, Hidden(sys), x);
    HiddenMore(sys, sys', x);
    ClearingIsLocal(s, x);
    if x in sys.torn {
      ClearedIsLost(s, x);
    } else {
      ClearedIsEmptied(sys, x);
    }
    MoveOn(sys, sys', x);
  }

  lemma HiddenMore(sys: System, sys': System, x: Id)
    requires sys'.flights - {x} == sys.flights - {x} && sys'.torn == sys.torn && IsLoose(sys'.flights, x)
    ensures Hidden(sys') == Hidden(sys) + {x}
  {
    forall d
      ensures d in Hidden(sys') <==> d in Hidden(sys) + {x}
    {
      LooseElsewhere(sys, sys', x, d);
    }
  }

  lemma ReindexBegins(st: Settings, sys: System, w: Id, x: Id)
    requires SystemInv(sys)
    ensures SystemInv(Apply(st, sys, BeginReindex(w, x)))
  {
    var s, m := sys.store, Masked(sys);
    if x !in sys.flights && Found(s, w, x) && !InProgress(s.jobs, w, x) {
      MaskAgrees(s, Hidden(sys), x);
      IdleMeansNoActiveJob(m, w, x);
      assert NoActiveJob(ClearChunks(s, x), x) by {
        assert forall j: Id :: JobOf(ClearChunks(s, x), x, j) ==> JobOf(m, x, j);
      }
      ClearingKeeps(sys, x, ReindexCleared(ChunksOf(s, x) != []));
    }
  }

  lemma DeleteBegins(st: Settings, sys: System, w: Id, x: Id)
    requires SystemInv(sys)
    ensures SystemInv(Apply(st, sys, BeginDelete(w, x)))
  {
    if x !in sys.flights && Found(sys.store, w, x) {
      ClearingKeeps(sys, x, DeleteCleared(ChunksOf(sys.store, x) != []));
    }
  }

  /** A commit on a job row, after which `flight` is left. */
  lemma RowCommits(sys: System, x: Id, j: Id, row: Job, flight: Flight)
    requires SystemInv(sys) && !IsLoose(sys.flights, x) && !Loose(flight) && x !in sys.torn
    requires j in sys.store.jobs && sys.store.jobs[j].document == x && row.document == x
    requires Inv(SetJob(Masked(sys), j, row)) && FlightOk(SetJob(sys.store, j, row), x, flight)
    ensures SystemInv(System(SetJob(sys.store, j, row), sys.flights[x := flight], sys.torn))
  {
    var sys' := System(SetJob(sys.store, j, row), sys.flights[x := flight], sys.torn);
    HiddenSame(sys, sys', x);
    MaskRest(sys.store, sys'.store, Hidden(sys));
    assert Masked(sys') == SetJob(Masked(sys), j, row);
    JobIsLocal(sys.store, x, j, row);
    MoveOn(sys, sys', x);
  }

  lemma AttemptBegins(st: Settings, sys: System, delivery: Delivery, env: Environment)
    requires ValidSettings(st) && SystemInv(sys) && delivery in sys.store.sent
    ensures SystemInv(Apply(st, sys, BeginAttempt(delivery, env)))
  {
    var s, x := sys.store, delivery.document;
    if x !in sys.flights && Accepts(s, delivery) {
      BegunKeeps(sys, delivery, st.work(s.documents[x].rowError, env));
    }
  }

  lemma BegunKeeps(sys: System, delivery: Delivery, verdict: Verdict)
    requires SystemInv(sys) && delivery in sys.store.sent && Accepts(sys.store, delivery)
    requires delivery.document !in sys.flights && (verdict.Store? ==> Contiguous(verdict.chunks))
    ensures SystemInv(System(Begin(sys.store, delivery), sys.flights[delivery.document := Started(delivery, verdict)],
      sys.torn))
  {
    var s, x, m := sys.store, delivery.document, Masked(sys);
    var row := Begin(s, delivery).jobs[delivery.job];
    AcceptedIsNotTorn(sys, delivery);
    MaskedReferences(s, Hidden(sys));
    MaskedAccepts(s, Hidden(sys), delivery);
    BeginKeeps(m, delivery);
    assert Begin(m, delivery) == SetJob(m, delivery.job, row);
    assert AttemptOk(SetJob(s, delivery.job, row), x, delivery, verdict);
    RowCommits(sys, x, delivery.job, row, Started(delivery, verdict));
  }

  // ----- later commits

  lemma NeedsJobCommits(sys: System, x: Id, w: Id)
    requires SystemInv(sys) && x in sys.flights && sys.flights[x].NeedsJob? && Found(sys.store, w, x)
    ensures SystemInv(System(AddJob(sys.store, w, x), sys.flights[x := NeedsMessage(sys.store.nextId)], sys.torn))
  {
    var s, m := sys.store, Masked(sys);
    assert FlightOk(s, x, NeedsJob) && TornOk(s, sys.torn, x, NeedsJob);
    MaskAgrees(s, Hidden(sys), x);
    MaskedReferences(s, Hidden(sys));
    assert forall j: Id :: JobOf(m, x, j) ==> JobOf(s, x, j);
    AddJobKeeps(m, w, x);
    JobAdded(sys, w, x);
  }

  lemma JobAdded(sys: System, w: Id, x: Id)
    requires SystemInv(sys) && x in sys.flights && !Loose(sys.flights[x]) && WellReferenced(sys.store)
    requires Inv(AddJob(Masked(sys), w, x))
    ensures SystemInv(System(AddJob(sys.store, w, x), sys.flights[x := NeedsMessage(sys.store.nextId)], sys.torn))
  {
    var s := sys.store;
    var sys' := System(AddJob(s, w, x), sys.flights[x := NeedsMessage(s.nextId)], sys.torn);
    assert TornOk(s, sys.torn, x, sys.flights[x]) && FlightOk(s, x, sys.flights[x]);
    HiddenSame(sys, sys', x);
    MaskRest(s, sys'.store, Hidden(sys));
    assert Masked(sys') == AddJob(Masked(sys), w, x);
    NewJobIsLocal(s, w, x);
    MoveOn(sys, sys', x);
  }

  lemma NeedsMessageCommits(sys: System, x: Id, w: Id)
    requires SystemInv(sys) && x in sys.flights && sys.flights[x].NeedsMessage?
    ensures SystemInv(System(Send(sys.store, Delivery(sys.flights[x].job, w, x, 0)), sys.flights - {x}, sys.torn))
  {
    var delivery := Delivery(sys.flights[x].job, w, x, 0);
    assert FlightOk(sys.store, x, sys.flights[x]);
    SendKeeps(Masked(sys), delivery);
    SentAndDone(sys, x, delivery);
  }

  lemma SentAndDone(sys: System, x: Id, delivery: Delivery)
    requires SystemInv(sys) && x in sys.flights && !Loose(sys.flights[x])
    requires Inv(Send(Masked(sys), delivery))
    ensures SystemInv(System(Send(sys.store, delivery), sys.flights - {x}, sys.torn))
  {
    var sys' := System(Send(sys.store, delivery), sys.flights - {x}, sys.torn);
    assert TornOk(sys.store, sys.torn, x, sys.flights[x]);
    HiddenSame(sys, sys', x);
    MaskRest(sys.store, sys'.store, Hidden(sys));
    assert Masked(sys') == Send(Masked(sys), delivery);
    MessageIsLocal(sys.store, x, delivery);
    MoveOn(sys, sys', x);
  }

  /** A commit on the status of a document, after which it is neither loose nor torn. */
  lemma StatusCommits(sys: System, x: Id, status: DocumentStatus, flights: map<Id, Flight>)
    requires SystemInv(sys) && x in sys.store.documents
    requires flights - {x} == sys.flights - {x} && (x in flights ==> !Loose(flights[x]))
    requires status == Indexed ==> Served(Masked(sys), x)
    requires x in flights ==> FlightOk(SetStatus(sys.store, x, status), x, flights[x])
    ensures SystemInv(System(SetStatus(sys.store, x, status), flights, sys.torn - {x}))
  {
    var s, sys' := sys.store, System(SetStatus(sys.store, x, status), flights, sys.torn - {x});
    assert DocumentOk(Masked(sys), x);
    SetStatusKeeps(Masked(sys), x, status);
    HiddenLess(sys, sys', x);
    MaskStatus(s, Hidden(sys), x, status);
    StatusIsLocal(s, x, status);
    MoveOn(sys, sys', x);
  }

  lemma ReindexClearedCommits(sys: System, x: Id)
    requires SystemInv(sys) && x in sys.flights && sys.flights[x].ReindexCleared?
    ensures SystemInv(System(SetStatus(sys.store, x, Processing), sys.flights[x := NeedsJob], sys.torn - {x}))
  {
    var s := sys.store;
    assert FlightOk(s, x, sys.flights[x]);
    assert forall j: Id :: JobOf(SetStatus(s, x, Processing), x, j) ==> JobOf(s, x, j);
    StatusCommits(sys, x, Processing, sys.flights[x := NeedsJob]);
  }

  lemma DeleteClearedCommits(sys: System, x: Id, w: Id)
    requires SystemInv(sys) && x in sys.flights && sys.flights[x].DeleteCleared?
    requires x in sys.store.documents && w == sys.store.documents[x].workspace
    ensures SystemInv(System(DropJobs(sys.store, w, x), sys.flights[x := DeleteDropped], sys.torn))
  {
    var s, m := sys.store, Masked(sys);
    var sys' := System(DropJobs(s, w, x), sys.flights[x := DeleteDropped], sys.torn);
    assert FlightOk(s, x, sys.flights[x]);
    MaskAgrees(s, Hidden(sys), x);
    assert ClearChunks(m, x) == m by {
      assert m.chunks - {x} == m.chunks;
    }
    DropJobsExact(m, w, x);
    HiddenSame(sys, sys', x);
    MaskRest(s, sys'.store, Hidden(sys));
    assert Masked(sys') == DropJobs(m, w, x);
    DroppingJobsIsLocal(s, w, x);
    assert NoJob(sys'.store, x) by {
      assert forall j: Id :: JobOf(sys'.store, x, j) ==> JobOf(DropJobs(m, w, x), x, j);
    }
    if x in sys.torn {
      assert Lost(s, x);
      DroppedIsLost(sys'.store, x);
    }
    MoveOn(sys, sys', x);
  }

  lemma DroppedIsLost(s: State, x: Id)
    requires x in s.documents && s.documents[x].status == Indexed && x !in s.chunks && NoJob(s, x)
    ensures Lost(s, x)
  {
    assert forall j :: Newest(s.jobs, s.documents[x].workspace, x, j) ==> JobOf(s, x, j);
  }

  lemma DeleteDroppedCommits(sys: System, x: Id)
    requires SystemInv(sys) && x in sys.flights && sys.flights[x].DeleteDropped?
    ensures SystemInv(System(DropDocument(sys.store, x), sys.flights - {x}, sys.torn - {x}))
  {
    var s, m := sys.store, Masked(sys);
    var sys' := System(DropDocument(s, x), sys.flights - {x}, sys.torn - {x});
    assert FlightOk(s, x, DeleteDropped);
    assert forall j: Id :: JobOf(m, x, j) ==> JobOf(s, x, j);
    DropDocumentKeeps(m, x);
    HiddenLess(sys, sys', x);
    MaskDrop(s, Hidden(sys), x);
    DroppingIsLocal(s, x);
    MoveOn(sys, sys', x);
  }

  lemma StartedCommits(sys: System, x: Id, delivery: Delivery, verdict: Verdict)
    requires SystemInv(sys) && x in sys.flights && sys.flights[x] == Started(delivery, verdict)
    ensures SystemInv(System(SetStatus(sys.store, x, Processing), sys.flights[x := Working(delivery, verdict)],
      sys.torn))
  {
    assert FlightOk(sys.store, x, sys.flights[x]) && TornOk(sys.store, sys.torn, x, sys.flights[x]);
    assert sys.torn - {x} == sys.torn;
    StatusCommits(sys, x, Processing, sys.flights[x := Working(delivery, verdict)]);
  }

  lemma FailureCommits(sys: System, x: Id, delivery: Delivery, message: string)
    requires SystemInv(sys) && x in sys.flights && !Loose(sys.flights[x])
    requires delivery.document == x && Accepts(sys.store, delivery)
    ensures SystemInv(System(FailBoth(sys.store, x, delivery.job, message), sys.flights - {x}, sys.torn))
  {
    var s, m, j := sys.store, Masked(sys), delivery.job;
    var row := s.jobs[j].(status := JobFailed, error := Some(message));
    var sys' := System(FailBoth(s, x, j, message), sys.flights - {x}, sys.torn);
    assert TornOk(s, sys.torn, x, sys.flights[x]);
    MaskedAccepts(s, Hidden(sys), delivery);
    FailBothKeeps(m, delivery, message);
    HiddenLess(sys, sys', x);
    MaskRest(s, SetJob(s, j, row), Hidden(sys));
    assert Mask(SetJob(s, j, row), Hidden(sys)) == SetJob(m, j, row);
    MaskStatus(SetJob(s, j, row), Hidden(sys), x, Failed);
    FailureIsLocal(s, x, j, message);
    MoveOn(sys, sys', x);
  }

  lemma ChunksCommit(sys: System, x: Id, delivery: Delivery, list: seq<EmbeddedChunk>)
    requires SystemInv(sys) && x in sys.flights && !Loose(sys.flights[x])
    requires AttemptOk(sys.store, x, delivery, Verdict.Store(list))
    ensures SystemInv(System(StoreChunks(sys.store, x, delivery.job, list),
      sys.flights[x := ChunksStored(delivery)], sys.torn))
  {
    var s, m, j := sys.store, Masked(sys), delivery.job;
    var sys' := System(StoreChunks(s, x, j, list), sys.flights[x := ChunksStored(delivery)], sys.torn);
    assert TornOk(s, sys.torn, x, sys.flights[x]);
    MaskedAccepts(s, Hidden(sys), delivery);
    AcceptedIsNotIndexed(m, delivery);
    assert JobOf(m, x, j);
    StoreChunksKeeps(m, x, j, list);
    HiddenSame(sys, sys', x);
    MaskRest(s, sys'.store, Hidden(sys));
    assert Masked(sys') == StoreChunks(m, x, j, list);
    ChunksAreLocal(s, x, j, list);
    MoveOn(sys, sys', x);
  }

  lemma RetryCommits(exhaustionHandled: bool, sys: System, x: Id, delivery: Delivery, message: string, sys': System)
    requires SystemInv(sys) && x in sys.flights && !Loose(sys.flights[x])
    requires AttemptOk(sys.store, x, delivery, Retry(message))
    requires sys'.flights == sys.flights - {x} && sys'.torn == sys.torn
    requires sys'.store == AfterWork(exhaustionHandled, sys.store, delivery, Retry(message)).0
    ensures SystemInv(sys')
  {
    if delivery.retries < INGESTION_MAX_RETRIES {
      var again := delivery.(retries := delivery.retries + 1);
      RetrySent(sys, x, again);
      assert sys' == System(Send(sys.store, again), sys.flights - {x}, sys.torn);
    } else if exhaustionHandled {
      FailureCommits(sys, x, delivery, message);
      assert sys' == System(FailBoth(sys.store, x, delivery.job, message), sys.flights - {x}, sys.torn);
    } else {
      QuietEnd(sys, x);
      assert sys' == System(sys.store, sys.flights - {x}, sys.torn);
    }
  }

  lemma RetrySent(sys: System, x: Id, again: Delivery)
    requires SystemInv(sys) && x in sys.flights && !Loose(sys.flights[x])
    requires again.job in sys.store.jobs && again.retries <= INGESTION_MAX_RETRIES
    ensures SystemInv(System(Send(sys.store, again), sys.flights - {x}, sys.torn))
  {
    MaskedReferences(sys.store, Hidden(sys));
    SendKeeps(Masked(sys), again);
    SentAndDone(sys, x, again);
  }

  lemma WorkingCommits(exhaustionHandled: bool, sys: System, x: Id, delivery: Delivery, verdict: Verdict, sys': System)
    requires SystemInv(sys) && x in sys.flights && sys.flights[x] == Working(delivery, verdict)
    requires Accepts(sys.store, delivery) && sys'.torn == sys.torn
    requires var next := AfterWork(exhaustionHandled, sys.store, delivery, verdict);
      sys'.store == next.0 && sys'.flights == if next.1.Some? then sys.flights[x := next.1.value] else sys.flights - {x}
    ensures SystemInv(sys')
  {
    assert FlightOk(sys.store, x, sys.flights[x]);
    match verdict
    case Fail(message) =>
      FailureCommits(sys, x, delivery, message);
      assert sys' == System(FailBoth(sys.store, x, delivery.job, message), sys.flights - {x}, sys.torn);
    case Retry(message) => RetryCommits(exhaustionHandled, sys, x, delivery, message, sys');
    case Store(list) =>
      ChunksCommit(sys, x, delivery, list);
      assert sys' == System(StoreChunks(sys.store, x, delivery.job, list), sys.flights[x := ChunksStored(delivery)],
        sys.torn);
  }

  /** An operation comes to an end without a commit, and leaves hidden what was hidden. */
  lemma QuietEnd(sys: System, x: Id)
    requires SystemInv(sys) && !IsLoose(sys.flights, x)
    ensures SystemInv(System(sys.store, sys.flights - {x}, sys.torn))
  {
    var sys' := System(sys.store, sys.flights - {x}, sys.torn);
    HiddenSame(sys, sys', x);
    MoveOn(sys, sys', x);
  }

  lemma ChunksStoredCommits(sys: System, x: Id, delivery: Delivery)
    requires SystemInv(sys) && x in sys.flights && sys.flights[x] == ChunksStored(delivery)
    requires delivery.job in sys.store.jobs
    ensures var row := sys.store.jobs[delivery.job].(status := Completed);
      SystemInv(System(SetJob(sys.store, delivery.job, row), sys.flights[x := JobCompleted(delivery)], sys.torn))
  {
    var s, m := sys.store, Masked(sys);
    var row := s.jobs[delivery.job].(status := Completed);
    assert FlightOk(s, x, sys.flights[x]) && TornOk(s, sys.torn, x, sys.flights[x]);
    MaskAgrees(s, Hidden(sys), x);
    MaskedAccepts(s, Hidden(sys), delivery);
    AcceptedIsNotIndexed(m, delivery);
    SetJobKeeps(m, delivery.job, row);
    NewestWasActive(m, delivery);
    assert Newest(SetJob(s, delivery.job, row).jobs, delivery.workspace, x, delivery.job);
    RowCommits(sys, x, delivery.job, row, JobCompleted(delivery));
  }

  lemma NewestWasActive(s: State, delivery: Delivery)
    requires Inv(s) && Accepts(s, delivery)
    ensures Newest(s.jobs, delivery.workspace, delivery.document, delivery.job)
  {
    assert DocumentOk(s, delivery.document) && JobOf(s, delivery.document, delivery.job);
    assert forall k :: k in s.jobs && s.jobs[k].document == delivery.document ==> JobOf(s, delivery.document, k);
  }

  lemma JobCompletedCommits(sys: System, x: Id)
    requires SystemInv(sys) && x in sys.flights && sys.flights[x].JobCompleted?
    ensures SystemInv(System(SetStatus(sys.store, x, Indexed), sys.flights - {x}, sys.torn))
  {
    assert FlightOk(sys.store, x, sys.flights[x]) && TornOk(sys.store, sys.torn, x, sys.flights[x]);
    MaskedDocument(sys.store, Hidden(sys), x);
    SameKeepsServed(sys.store, Masked(sys), x);
    assert sys.torn - {x} == sys.torn;
    StatusCommits(sys, x, Indexed, sys.flights - {x});
  }

  /** An operation under way always finds the rows of its next commit. */
  lemma NothingIsStuck(sys: System, d: Id)
    requires SystemInv(sys) && d in sys.flights
    ensures CanAdvance(sys.store, d, sys.flights[d])
  {
    assert FlightOk(sys.store, d, sys.flights[d]);
  }

  predicate OfRequest(flight: Flight) {
    flight.NeedsJob? || flight.NeedsMessage? || Loose(flight)
  }

  lemma RequestCommits(st: Settings, sys: System, x: Id)
    requires SystemInv(sys) && x in sys.flights && OfRequest(sys.flights[x])
    ensures SystemInv(Apply(st, sys, Commit(x)))
  {
    NothingIsStuck(sys, x);
    var w := sys.store.documents[x].workspace;
    match sys.flights[x]
    case NeedsJob => NeedsJobCommits(sys, x, w);
    case NeedsMessage(_) => NeedsMessageCommits(sys, x, w);
    case ReindexCleared(_) => ReindexClearedCommits(sys, x);
    case DeleteCleared(_) => DeleteClearedCommits(sys, x, w);
    case DeleteDropped => DeleteDroppedCommits(sys, x);
  }

  lemma AttemptCommits(st: Settings, sys: System, x: Id)
    requires SystemInv(sys) && x in sys.flights && !OfRequest(sys.flights[x]) && !sys.flights[x].Working?
    ensures SystemInv(Apply(st, sys, Commit(x)))
  {
    NothingIsStuck(sys, x);
    match sys.flights[x]
    case Started(delivery, verdict) => StartedCommits(sys, x, delivery, verdict);
    case ChunksStored(delivery) => ChunksStoredCommits(sys, x, delivery);
    case JobCompleted(_) => JobCompletedCommits(sys, x);
  }

  lemma OutcomeCommits(st: Settings, sys: System, x: Id)
    requires SystemInv(sys) && x in sys.flights && sys.flights[x].Working?
    ensures SystemInv(Apply(st, sys, Commit(x)))
  {
    NothingIsStuck(sys, x);
    var flight := sys.flights[x];
    WorkingCommits(st.exhaustionHandled, sys, x, flight.delivery, flight.verdict, Apply(st, sys, Commit(x)));
  }

  lemma CommitKeeps(st: Settings, sys: System, x: Id)
    requires SystemInv(sys)
    ensures SystemInv(Apply(st, sys, Commit(x)))
  {
    if x in sys.flights {
      if OfRequest(sys.flights[x]) {
        RequestCommits(st, sys, x);
      } else if sys.flights[x].Working? {
        OutcomeCommits(st, sys, x);
      } else {
        AttemptCommits(st, sys, x);
      }
    }
  }

  // ----- deaths

  /** A request that dies in a gap has lost what its document served; one that dies elsewhere has not. */
  lemma TornIsLost(sys: System, x: Id)
    requires SystemInv(sys) && TornDeath(sys, x)
    ensures Lost(sys.store, x)
  {
    var s, flight := sys.store, sys.flights[x];
    assert FlightOk(s, x, flight) && TornOk(s, sys.torn, x, flight);
    if flight.DeleteDropped? {
      DroppedIsLost(s, x);
    } else {
      var w := s.documents[x].workspace;
      var j :| Newest(s.jobs, w, x, j) && s.jobs[j].status == Completed && j in s.produced && s.produced[j] != [];
      forall k | Newest(s.jobs, w, x, k)
        ensures k == j
      {
        NewestIsUnique(s, w, x, j, k);
      }
    }
  }

  /** The operation on a loose document dies: what is hidden so far comes to light, or is torn. */
  lemma LooseDeath(sys: System, x: Id)
    requires SystemInv(sys) && IsLoose(sys.flights, x)
    ensures TornDeath(sys, x) ==>
      && SystemInv(System(sys.store, sys.flights - {x}, sys.torn + {x}))
      && !Inv(Masked(System(sys.store, sys.flights - {x}, sys.torn)))
    ensures !TornDeath(sys, x) ==> SystemInv(System(sys.store, sys.flights - {x}, sys.torn))
  {
    assert FlightOk(sys.store, x, sys.flights[x]) && TornOk(sys.store, sys.torn, x, sys.flights[x]);
    if TornDeath(sys, x) {
      TornIsLost(sys, x);
      LostComesToLight(sys, System(sys.store, sys.flights - {x}, sys.torn), x);
      TornStaysHidden(sys, x);
    } else if x in sys.torn {
      TornStaysHidden(sys, x);
      assert sys.torn + {x} == sys.torn;
    } else {
      HarmlessDeath(sys, x);
    }
  }

  lemma TornStaysHidden(sys: System, x: Id)
    requires SystemInv(sys) && IsLoose(sys.flights, x) && Lost(sys.store, x)
    ensures SystemInv(System(sys.store, sys.flights - {x}, sys.torn + {x}))
  {
    var sys' := System(sys.store, sys.flights - {x}, sys.torn + {x});
    HiddenStays(sys, sys', x);
    MoveOn(sys, sys', x);
  }

  lemma Death(sys: System, x: Id)
    requires SystemInv(sys)
    ensures SystemInv(System(sys.store, sys.flights - {x}, if TornDeath(sys, x) then sys.torn + {x} else sys.torn))
    ensures SystemInv(System(sys.store, sys.flights - {x}, sys.torn)) <==> !TornDeath(sys, x)
  {
    if IsLoose(sys.flights, x) {
      LooseDeath(sys, x);
    } else {
      QuietEnd(sys, x);
    }
  }

  lemma HiddenStays(sys: System, sys': System, x: Id)
    requires IsLoose(sys.flights, x) && sys'.flights == sys.flights - {x} && sys'.torn == sys.torn + {x}
    ensures Hidden(sys') == Hidden(sys)
  {
    forall d
      ensures d in Hidden(sys') <==> d in Hidden(sys)
    {
      LooseElsewhere(sys, sys', x, d);
    }
  }

  lemma LostComesToLight(sys: System, untorn: System, x: Id)
    requires Lost(sys.store, x) && untorn == System(sys.store, sys.flights - {x}, sys.torn) && x !in sys.torn
    ensures !Inv(Masked(untorn))
  {
    LostIsNotServed(sys.store, x);
    MaskedDocument(sys.store, Hidden(untorn), x);
    if DocumentOk(Masked(untorn), x) {
      SameKeepsOk(Masked(untorn), sys.store, x);
    }
  }

  lemma HarmlessDeath(sys: System, x: Id)
    requires SystemInv(sys) && IsLoose(sys.flights, x) && !TornDeath(sys, x) && x !in sys.torn
    ensures SystemInv(System(sys.store, sys.flights - {x}, sys.torn))
  {
    var s, flight := sys.store, sys.flights[x];
    assert FlightOk(s, x, flight) && TornOk(s, sys.torn, x, flight);
    assert SetStatus(s, x, s.documents[x].status) == s by {
      assert s.documents[x := s.documents[x]] == s.documents;
    }
    assert sys.torn - {x} == sys.torn;
    if s.documents[x].status == Indexed {
      assert Served(s, x);
      ServedInMask(s, Hidden(sys), x);
    }
    StatusCommits(sys, x, s.documents[x].status, sys.flights - {x});
  }

  lemma ServedInMask(s: State, hidden: set<Id>, x: Id)
    requires x in s.documents && Served(s, x)
    ensures x in Mask(s, hidden).documents && Served(Mask(s, hidden), x)
  {
    MaskAgrees(s, hidden, x);
    var m, w := Mask(s, hidden), s.documents[x].workspace;
    var j :| Newest(s.jobs, w, x, j) && s.jobs[j].status == Completed && j in s.produced &&
      ChunksOf(s, x) == s.produced[j];
    assert Newest(m.jobs, w, x, j);
  }

  // ----- moves and runs

  /**
   Every move, of whatever document, keeps the invariant.  A death keeps it without tearing its
   document if and only if it is not that of a request in a gap.
   */
  lemma MoveKeepsInvariantExactly(st: Settings, sys: System, move: Move)
    requires ValidSettings(st) && SystemInv(sys) && MoveEnabled(sys, move)
    ensures SystemInv(Apply(st, sys, move))
    ensures move.Die? ==>
      (SystemInv(System(sys.store, sys.flights - {move.document}, sys.torn)) <==> !TornDeath(sys, move.document))
  {
    match move
    case BeginUpload(w, rowError) => UploadBegins(st, sys, w, rowError);
    case BeginReindex(w, d) => ReindexBegins(st, sys, w, d);
    case BeginDelete(w, d) => DeleteBegins(st, sys, w, d);
    case BeginAttempt(delivery, env) => AttemptBegins(st, sys, delivery, env);
    case Commit(d) => CommitKeeps(st, sys, d);
    case Die(d) => Death(sys, d);
  }

  ghost function RunMoves(st: Settings, sys: System, moves: seq<Move>): System
    decreases |moves|
  {
    if moves == [] then sys else RunMoves(st, Apply(st, sys, moves[0]), moves[1..])
  }

  /** All messages come from the queue. */
  ghost predicate DeliveredMoves(st: Settings, sys: System, moves: seq<Move>)
    decreases |moves|
  {
    moves == [] || (MoveEnabled(sys, moves[0]) && DeliveredMoves(st, Apply(st, sys, moves[0]), moves[1..]))
  }

  lemma {:induction false} MovesKeepInvariant(st: Settings, sys: System, moves: seq<Move>)
    requires ValidSettings(st) && SystemInv(sys) && DeliveredMoves(st, sys, moves)
    ensures SystemInv(RunMoves(st, sys, moves))
    decreases |moves|
  {
    if moves != [] {
      MoveKeepsInvariantExactly(st, sys, moves[0]);
      MovesKeepInvariant(st, Apply(st, sys, moves[0]), moves[1..]);
    }
  }

  const START := System(EMPTY, map[], {})

  lemma StartIsFine()
    ensures SystemInv(START)
  {
    NothingHidden(EMPTY);
    assert Hidden(START) == {};
    assert Inv(EMPTY);
  }

  /**
   However the commits of operations on different documents interleave, and wherever any
   process dies: at every moment each document has at most one active job, its newest; and one
   marked indexed, unless a request on it is just between clearing it and its next commit, is
   served by its completed newest job, with exactly the chunks that job embedded, numbered 0,
   1, 2, ..., if and only if no request has died there since its row was last written.
   */
  lemma ServedAtEveryMoment(st: Settings, moves: seq<Move>, d: Id)
    requires ValidSettings(st) && DeliveredMoves(st, START, moves)
    ensures var sys := RunMoves(st, START, moves);
      && OneActive(sys.store, d)
      && (d in sys.store.documents && sys.store.documents[d].status == Indexed && !IsLoose(sys.flights, d) ==>
        && (Served(sys.store, d) <==> d !in sys.torn)
        && (d !in sys.torn ==> Contiguous(ChunksOf(sys.store, d)))
        && NoActiveJob(sys.store, d))
  {
    StartIsFine();
    MovesKeepInvariant(st, START, moves);
    ServedNow(RunMoves(st, START, moves), d);
  }

  lemma ServedNow(sys: System, d: Id)
    requires SystemInv(sys)
    ensures OneActive(sys.store, d)
    ensures d in sys.store.documents && sys.store.documents[d].status == Indexed && !IsLoose(sys.flights, d) ==>
      && (Served(sys.store, d) <==> d !in sys.torn)
      && (d !in sys.torn ==> Contiguous(ChunksOf(sys.store, d)))
      && NoActiveJob(sys.store, d)
  {
    var s, m := sys.store, Masked(sys);
    MaskedOneActive(s, Hidden(sys), d);
    MaskedReferences(s, Hidden(sys));
    if d in sys.torn {
      LostIsNotServed(s, d);
      LostIsIdle(s, d);
    } else if d in s.documents && s.documents[d].status == Indexed && !IsLoose(sys.flights, d) {
      assert DocumentOk(m, d);
      MaskedDocument(s, Hidden(sys), d);
      SameKeepsOk(m, s, d);
      IndexedMeansNoActiveJob(m, d);
      assert forall j: Id :: JobOf(s, d, j) ==> JobOf(m, d, j);
    }
  }
}
