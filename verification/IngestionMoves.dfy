/**
 What holds over whole runs however the commits of operations on different documents interleave:
 terminal jobs, redelivery, attempt counts, documents at rest, and deletion.
 */
module IngestionMoves {
  import opened Ingestion
  import opened IngestionInvariant
  import opened IngestionMask
  import opened IngestionRuns
  import opened IngestionInterleaving

  // ----- terminal jobs

  lemma AdvanceKeepsOtherJobs(exhaustionHandled: bool, s: State, d: Id, flight: Flight, j: Id)
    requires CanAdvance(s, d, flight) && Settled(s, j)
    ensures Unchanged(s, Advance(exhaustionHandled, s, d, flight).0, j)
  {
  }

  lemma MoveKeepsSettled(st: Settings, sys: System, move: Move, j: Id)
    requires Settled(sys.store, j)
    ensures Unchanged(sys.store, Apply(st, sys, move).store, j)
  {
    if move.Commit? && move.document in sys.flights {
      var d := move.document;
      if CanAdvance(sys.store, d, sys.flights[d]) {
        AdvanceKeepsOtherJobs(st.exhaustionHandled, sys.store, d, sys.flights[d], j);
      }
    }
  }

  /** Completed and failed are absorbing, and a deleted job's id never names a job again. */
  lemma {:induction false} SettledThroughMoves(st: Settings, sys: System, moves: seq<Move>, j: Id)
    requires Settled(sys.store, j)
    ensures Unchanged(sys.store, RunMoves(st, sys, moves).store, j)
    decreases |moves|
  {
    if moves != [] {
      MoveKeepsSettled(st, sys, moves[0], j);
      SettledThroughMoves(st, Apply(st, sys, moves[0]), moves[1..], j);
    }
  }

  lemma {:induction false} RunMovesAppend(st: Settings, sys: System, a: seq<Move>, b: seq<Move>)
    ensures RunMoves(st, sys, a + b) == RunMoves(st, RunMoves(st, sys, a), b)
    decreases |a|
  {
    if a == [] {
      assert a + b == b;
    } else {
      assert (a + b)[0] == a[0] && (a + b)[1..] == a[1..] + b;
      RunMovesAppend(st, Apply(st, sys, a[0]), a[1..], b);
    }
  }

  /** A message delivered again at any time after its job is terminal or gone makes no difference. */
  lemma RedeliveryAmongMoves(st: Settings, sys: System, before: seq<Move>, between: seq<Move>, after: seq<Move>,
      delivery: Delivery, env: Environment)
    requires Settled(RunMoves(st, sys, before).store, delivery.job)
    ensures RunMoves(st, sys, before + between + [BeginAttempt(delivery, env)] + after)
      == RunMoves(st, sys, before + between + after)
  {
    var again := BeginAttempt(delivery, env);
    var now := RunMoves(st, sys, before + between);
    RunMovesAppend(st, sys, before, between);
    SettledThroughMoves(st, RunMoves(st, sys, before), between, delivery.job);
    assert Apply(st, now, again) == now;
    RunMovesAppend(st, sys, before + between, after);
    RunMovesAppend(st, sys, before + between, [again]);
    RunMovesAppend(st, sys, before + between + [again], after);
    assert [again][1..] == [] && RunMoves(st, now, [again]) == now;
  }

  // ----- attempts

  /** Does this move commit job `j` as running? */
  ghost predicate EntersBy(sys: System, move: Move, j: Id) {
    && move.BeginAttempt? && move.delivery.job == j
    && move.delivery.document !in sys.flights && Accepts(sys.store, move.delivery)
  }

  ghost function EntriesBy(st: Settings, sys: System, moves: seq<Move>, j: Id): nat
    decreases |moves|
  {
    if moves == [] then 0
    else (if EntersBy(sys, moves[0], j) then 1 else 0) + EntriesBy(st, Apply(st, sys, moves[0]), moves[1..], j)
  }

  lemma AdvanceKeepsAttempts(exhaustionHandled: bool, s: State, d: Id, flight: Flight, j: Id)
    requires CanAdvance(s, d, flight) && FreshIds(s)
    ensures var s' := Advance(exhaustionHandled, s, d, flight).0;
      && FreshIds(s') && s.nextId <= s'.nextId
      && (j in s'.jobs ==> Attempts(s', j) == Attempts(s, j))
  {
  }

  lemma MoveCountsAttempts(st: Settings, sys: System, move: Move, j: Id)
    requires FreshIds(sys.store)
    ensures var s' := Apply(st, sys, move).store;
      && FreshIds(s') && sys.store.nextId <= s'.nextId
      && (j in s'.jobs ==> Attempts(s', j) == Attempts(sys.store, j) + if EntersBy(sys, move, j) then 1 else 0)
  {
    if move.Commit? && move.document in sys.flights {
      var d := move.document;
      if CanAdvance(sys.store, d, sys.flights[d]) {
        AdvanceKeepsAttempts(st.exhaustionHandled, sys.store, d, sys.flights[d], j);
      }
    }
  }

  /** A job's `attempt_count` is the number of attempts that entered processing. */
  lemma {:induction false} AttemptCountThroughMoves(st: Settings, sys: System, moves: seq<Move>, j: Id)
    requires FreshIds(sys.store) && j in RunMoves(st, sys, moves).store.jobs
    requires j in sys.store.jobs || j >= sys.store.nextId
    ensures Attempts(RunMoves(st, sys, moves).store, j) == Attempts(sys.store, j) + EntriesBy(st, sys, moves, j)
    decreases |moves|
  {
    if moves != [] {
      var sys', rest := Apply(st, sys, moves[0]), moves[1..];
      MoveCountsAttempts(st, sys, moves[0], j);
      if j < sys'.store.nextId && j !in sys'.store.jobs {
        SettledThroughMoves(st, sys', rest, j);
      }
      AttemptCountThroughMoves(st, sys', rest, j);
    }
  }

  // ----- documents at rest

  function Target(sys: System, move: Move): Id {
    match move
    case BeginUpload(_, _) => sys.store.nextId
    case BeginReindex(_, d) => d
    case BeginDelete(_, d) => d
    case BeginAttempt(delivery, _) => delivery.document
    case Commit(d) => d
    case Die(d) => d
  }

  lemma AdvanceIsLocal(exhaustionHandled: bool, s: State, d: Id, flight: Flight)
    requires WellReferenced(s) && CanAdvance(s, d, flight)
    ensures OthersSame(s, Advance(exhaustionHandled, s, d, flight).0, d)
  {
    if OfRequest(flight) {
      RequestIsLocal(exhaustionHandled, s, d, flight);
    } else if flight.Working? {
      OutcomeIsLocal(exhaustionHandled, s, flight.delivery, flight.verdict);
    } else if flight.ChunksStored? {
      JobIsLocal(s, d, flight.delivery.job, s.jobs[flight.delivery.job].(status := Completed));
    } else {
      StatusIsLocal(s, d, if flight.Started? then Processing else Indexed);
    }
  }

  lemma RequestIsLocal(exhaustionHandled: bool, s: State, d: Id, flight: Flight)
    requires WellReferenced(s) && CanAdvance(s, d, flight) && OfRequest(flight)
    ensures OthersSame(s, Advance(exhaustionHandled, s, d, flight).0, d)
  {
    var w := s.documents[d].workspace;
    match flight
    case NeedsJob => NewJobIsLocal(s, w, d);
    case NeedsMessage(j) => MessageIsLocal(s, d, Delivery(j, w, d, 0));
    case ReindexCleared(_) => StatusIsLocal(s, d, Processing);
    case DeleteCleared(_) => DroppingJobsIsLocal(s, w, d);
    case DeleteDropped => DroppingIsLocal(s, d);
  }

  lemma OutcomeIsLocal(exhaustionHandled: bool, s: State, delivery: Delivery, verdict: Verdict)
    requires Accepts(s, delivery)
    ensures OthersSame(s, AfterWork(exhaustionHandled, s, delivery, verdict).0, delivery.document)
  {
    var d := delivery.document;
    match verdict
    case Fail(message) => FailureIsLocal(s, d, delivery.job, message);
    case Retry(message) =>
      MessageIsLocal(s, d, delivery.(retries := delivery.retries + 1));
      FailureIsLocal(s, d, delivery.job, message);
    case Store(list) => ChunksAreLocal(s, d, delivery.job, list);
  }

  /** Isolation: a move changes no document but its own. */
  lemma MoveIsLocal(st: Settings, sys: System, move: Move)
    requires WellReferenced(sys.store)
    ensures OthersSame(sys.store, Apply(st, sys, move).store, Target(sys, move))
  {
    var s := sys.store;
    match move
    case BeginUpload(w, rowError) => NewDocumentIsLocal(s, Document(w, Uploaded, rowError));
    case BeginReindex(_, d) => ClearingIsLocal(s, d);
    case BeginDelete(_, d) => ClearingIsLocal(s, d);
    case BeginAttempt(delivery, _) =>
      if Accepts(s, delivery) {
        JobIsLocal(s, delivery.document, delivery.job, Begin(s, delivery).jobs[delivery.job]);
      }
    case Commit(d) =>
      if d in sys.flights && CanAdvance(s, d, sys.flights[d]) {
        AdvanceIsLocal(st.exhaustionHandled, s, d, sys.flights[d]);
      }
    case Die(_) =>
  }

  /** No operation is under way on the document, and none of its jobs is active. */
  ghost predicate AtRest(sys: System, d: Id) {
    d in sys.store.documents && d !in sys.flights && NoActiveJob(sys.store, d)
  }

  ghost predicate BeginsRewrite(move: Move, d: Id) {
    (move.BeginReindex? || move.BeginDelete?) && move.document == d
  }

  lemma RestingMove(st: Settings, sys: System, move: Move, d: Id)
    requires WellReferenced(sys.store) && AtRest(sys, d) && !BeginsRewrite(move, d)
    ensures var sys' := Apply(st, sys, move);
      AtRest(sys', d) && SameDocument(sys.store, sys'.store, d)
  {
    var s, sys' := sys.store, Apply(st, sys, move);
    MoveIsLocal(st, sys, move);
    if move.BeginAttempt? && move.delivery.document == d {
      NotAcceptedWithoutActiveJob(s, move.delivery);
    }
    assert SameDocument(s, sys'.store, d);
    SameKeepsNoActiveJob(s, sys'.store, d);
  }

  /** A document at rest is changed by no run of moves that does not begin to re-index or delete it. */
  lemma {:induction false} RestThroughMoves(st: Settings, sys: System, moves: seq<Move>, d: Id)
    requires ValidSettings(st) && SystemInv(sys) && DeliveredMoves(st, sys, moves) && AtRest(sys, d)
    requires forall i :: 0 <= i < |moves| ==> !BeginsRewrite(moves[i], d)
    ensures var s' := RunMoves(st, sys, moves).store;
      d in s'.documents && s'.documents[d] == sys.store.documents[d] && ChunksOf(s', d) == ChunksOf(sys.store, d)
    decreases |moves|
  {
    if moves != [] {
      MaskedReferences(sys.store, Hidden(sys));
      RestingMove(st, sys, moves[0], d);
      MoveKeepsInvariantExactly(st, sys, moves[0]);
      RestThroughMoves(st, Apply(st, sys, moves[0]), moves[1..], d);
    }
  }

  // ----- deletion

  lemma MoveKeepsGone(st: Settings, sys: System, move: Move, d: Id)
    requires SystemInv(sys) && d !in sys.store.documents && d < sys.store.nextId
    ensures d !in Apply(st, sys, move).store.documents && d < Apply(st, sys, move).store.nextId
  {
    if move.Commit? && move.document in sys.flights {
      NothingIsStuck(sys, move.document);
      AdvanceAddsNoDocument(st.exhaustionHandled, sys.store, move.document, sys.flights[move.document]);
    }
  }

  lemma AdvanceAddsNoDocument(exhaustionHandled: bool, s: State, d: Id, flight: Flight)
    requires CanAdvance(s, d, flight)
    ensures var s' := Advance(exhaustionHandled, s, d, flight).0;
      s'.documents.Keys <= s.documents.Keys && s.nextId <= s'.nextId
  {
  }

  lemma {:induction false} GoneThroughMoves(st: Settings, sys: System, moves: seq<Move>, d: Id)
    requires ValidSettings(st) && SystemInv(sys) && DeliveredMoves(st, sys, moves)
    requires d !in sys.store.documents && d < sys.store.nextId
    ensures var s' := RunMoves(st, sys, moves).store;
      d !in s'.documents && d !in s'.chunks && forall j :: !JobOf(s', d, j)
    decreases |moves|
  {
    if moves == [] {
      MaskedReferences(sys.store, Hidden(sys));
    } else {
      MoveKeepsGone(st, sys, moves[0], d);
      MoveKeepsInvariantExactly(st, sys, moves[0]);
      GoneThroughMoves(st, Apply(st, sys, moves[0]), moves[1..], d);
    }
  }

  /** The last commit of a deletion is final: nothing brings the document, a job or a chunk of it back. */
  lemma DeletionThroughMoves(st: Settings, sys: System, moves: seq<Move>, d: Id)
    requires ValidSettings(st) && SystemInv(sys) && d in sys.flights && sys.flights[d].DeleteDropped?
    requires DeliveredMoves(st, Apply(st, sys, Commit(d)), moves)
    ensures var s' := RunMoves(st, Apply(st, sys, Commit(d)), moves).store;
      d !in s'.documents && d !in s'.chunks && forall j :: !JobOf(s', d, j)
  {
    NothingIsStuck(sys, d);
    MaskedReferences(sys.store, Hidden(sys));
    MoveKeepsInvariantExactly(st, sys, Commit(d));
    GoneThroughMoves(st, Apply(st, sys, Commit(d)), moves, d);
  }
}
