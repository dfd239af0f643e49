/**
 What every run of operations reaches, with any process dying after any of its commits: the
 invariant of the protocol for all documents but those that a dead request has torn.

 An operation alone is a sequence of moves, so all of this follows from the interleaved runs.
 */
module IngestionReachable {
  import opened Wrappers
  import opened Ingestion
  import opened IngestionInvariant
  import opened IngestionMask
  import opened IngestionInterleaving

  // ----- an operation alone

  function First(step: Step): Move {
    match step
    case Upload(w, rowError, _) => BeginUpload(w, rowError)
    case Reindex(w, d, _) => BeginReindex(w, d)
    case Delete(w, d, _) => BeginDelete(w, d)
    case Attempt(delivery, env, _) => BeginAttempt(delivery, env)
  }

  function Subject(s: State, step: Step): Id {
    match step
    case Upload(_, _, _) => s.nextId
    case Reindex(_, d, _) => d
    case Delete(_, d, _) => d
    case Attempt(delivery, _, _) => delivery.document
  }

  /** The first `k` commits of an operation with nothing else going on. */
  ghost function Solo(st: Settings, s: State, torn: set<Id>, step: Step, k: nat): System {
    if k == 0 then System(s, map[], torn)
    else if k == 1 then Apply(st, System(s, map[], torn), First(step))
    else Apply(st, Solo(st, s, torn, step, k - 1), Commit(Subject(s, step)))
  }

  lemma {:induction false} SoloEnds(st: Settings, s: State, torn: set<Id>, step: Step, n: nat, k: nat)
    requires 1 <= n <= k && Solo(st, s, torn, step, n).flights == map[]
    ensures Solo(st, s, torn, step, k) == Solo(st, s, torn, step, n)
  {
    if n < k {
      SoloEnds(st, s, torn, step, n, k - 1);
    }
  }

  /** One more commit of the operation; `now` is what is torn by then. */
  lemma SoloNext(st: Settings, s: State, torn: set<Id>, step: Step, k: nat, store: State, flight: Flight, now: set<Id>)
    requires k >= 1 && CanAdvance(store, Subject(s, step), flight)
    requires Solo(st, s, torn, step, k) == System(store, map[Subject(s, step) := flight], now)
    ensures var x := Subject(s, step);
      var next := Advance(st.exhaustionHandled, store, x, flight);
      Solo(st, s, torn, step, k + 1)
      == System(next.0, if next.1.Some? then map[x := next.1.value] else map[],
        if Heals(flight) then now - {x} else now)
  {
    var x := Subject(s, step);
    assert map[x := flight] - {x} == map[];
    assert forall f: Flight :: map[x := flight][x := f] == map[x := f];
  }

  /** What is torn after a step: a request that dies in a gap adds its document, one that gets past it takes it away. */
  ghost function TornAfter(s: State, torn: set<Id>, step: Step): set<Id> {
    if Torn(s, step) then torn + {step.document}
    else
      match step
      case Reindex(w, d, upto) => if upto >= 2 && Found(s, w, d) && !InProgress(s.jobs, w, d) then torn - {d} else torn
      case Delete(w, d, upto) => if upto >= 3 && Found(s, w, d) then torn - {d} else torn
      case _ => torn
  }

  /** The commits of an operation alone, up to its death, make up the step of the protocol. */
  ghost predicate MakesStep(st: Settings, s: State, torn: set<Id>, step: Step) {
    Apply(st, Solo(st, s, torn, step, step.upto), Die(Subject(s, step)))
    == System(Next(st, s, step), map[], TornAfter(s, torn, step))
  }

  /** An operation that dies when nothing is left of it, or dies on a document that is not loose. */
  lemma DiesQuietly(st: Settings, sys: System, x: Id)
    requires sys.flights == map[] || exists flight :: sys.flights == map[x := flight] && !Loose(flight)
    ensures Apply(st, sys, Die(x)) == System(sys.store, map[], sys.torn)
  {
    assert sys.flights - {x} == map[];
  }

  lemma DiesLoose(st: Settings, sys: System, x: Id, flight: Flight)
    requires sys.flights == map[x := flight] && Loose(flight) && x in sys.store.documents
    ensures
      var tears := sys.store.documents[x].status == Indexed && (flight.DeleteDropped? || flight.hadChunks);
      Apply(st, sys, Die(x)) == System(sys.store, map[], if tears then sys.torn + {x} else sys.torn)
  {
    assert sys.flights - {x} == map[];
    assert x in sys.torn ==> sys.torn + {x} == sys.torn;
  }

  lemma SoloUpload(st: Settings, s: State, torn: set<Id>, step: Step)
    requires step.Upload?
    ensures MakesStep(st, s, torn, step)
  {
    var x, k := s.nextId, step.upto;
    var t := UploadTrace(s, step.workspace, step.rowError);
    assert Solo(st, s, torn, step, 1) == System(t[1], map[x := NeedsJob], torn);
    SoloNext(st, s, torn, step, 1, t[1], NeedsJob, torn);
    SoloNext(st, s, torn, step, 2, t[2], NeedsMessage(t[1].nextId), torn);
    if k >= 3 {
      SoloEnds(st, s, torn, step, 3, k);
    }
    DiesQuietly(st, Solo(st, s, torn, step, k), x);
  }

  lemma SoloReindex(st: Settings, s: State, torn: set<Id>, step: Step)
    requires step.Reindex?
    ensures MakesStep(st, s, torn, step)
  {
    var w, x, k := step.workspace, step.document, step.upto;
    if !Found(s, w, x) || InProgress(s.jobs, w, x) {
      if k >= 1 {
        SoloEnds(st, s, torn, step, 1, k);
      }
      DiesQuietly(st, Solo(st, s, torn, step, k), x);
    } else {
      SoloReindexed(st, s, torn, step);
    }
  }

  lemma SoloReindexed(st: Settings, s: State, torn: set<Id>, step: Step)
    requires step.Reindex? && Found(s, step.workspace, step.document)
    requires !InProgress(s.jobs, step.workspace, step.document)
    ensures MakesStep(st, s, torn, step)
  {
    var w, x, k := step.workspace, step.document, step.upto;
    var t, flight, now := ReindexTrace(s, w, x), ReindexCleared(ChunksOf(s, x) != []), torn - {x};
    assert Solo(st, s, torn, step, 1) == System(t[1], map[x := flight], torn);
    SoloNext(st, s, torn, step, 1, t[1], flight, torn);
    SoloNext(st, s, torn, step, 2, t[2], NeedsJob, now);
    SoloNext(st, s, torn, step, 3, t[3], NeedsMessage(t[2].nextId), now);
    if k == 1 {
      DiesLoose(st, Solo(st, s, torn, step, 1), x, flight);
    } else {
      if k >= 4 {
        SoloEnds(st, s, torn, step, 4, k);
      }
      DiesQuietly(st, Solo(st, s, torn, step, k), x);
    }
  }

  lemma SoloDelete(st: Settings, s: State, torn: set<Id>, step: Step)
    requires step.Delete?
    ensures MakesStep(st, s, torn, step)
  {
    var w, x, k := step.workspace, step.document, step.upto;
    if !Found(s, w, x) {
      if k >= 1 {
        SoloEnds(st, s, torn, step, 1, k);
      }
      DiesQuietly(st, Solo(st, s, torn, step, k), x);
    } else {
      SoloDeleted(st, s, torn, step);
    }
  }

  lemma SoloDeleted(st: Settings, s: State, torn: set<Id>, step: Step)
    requires step.Delete? && Found(s, step.workspace, step.document)
    ensures MakesStep(st, s, torn, step)
  {
    var w, x, k := step.workspace, step.document, step.upto;
    var t, flight := DeleteTrace(s, w, x), DeleteCleared(ChunksOf(s, x) != []);
    assert Solo(st, s, torn, step, 1) == System(t[1], map[x := flight], torn);
    SoloNext(st, s, torn, step, 1, t[1], flight, torn);
    SoloNext(st, s, torn, step, 2, t[2], DeleteDropped, torn);
    if k == 1 {
      DiesLoose(st, Solo(st, s, torn, step, 1), x, flight);
    } else if k == 2 {
      DiesLoose(st, Solo(st, s, torn, step, 2), x, DeleteDropped);
    } else {
      if k >= 3 {
        SoloEnds(st, s, torn, step, 3, k);
      }
      DiesQuietly(st, Solo(st, s, torn, step, k), x);
    }
  }

  lemma SoloAttempt(st: Settings, s: State, torn: set<Id>, step: Step)
    requires step.Attempt?
    ensures MakesStep(st, s, torn, step)
  {
    var delivery, x, k := step.delivery, step.delivery.document, step.upto;
    if !Accepts(s, delivery) {
      if k >= 1 {
        SoloEnds(st, s, torn, step, 1, k);
      }
    } else {
      var verdict := st.work(s.documents[x].rowError, step.env);
      if verdict.Store? {
        SoloStore(st, s, torn, step, verdict);
      } else {
        SoloShort(st, s, torn, step, verdict);
      }
    }
    DiesQuietly(st, Solo(st, s, torn, step, k), x);
  }

  /** Nothing is left of the operation, or it is an attempt under way. */
  ghost predicate AttemptLeft(sys: System, x: Id, torn: set<Id>) {
    && sys.torn == torn
    && (sys.flights == map[] || exists flight :: sys.flights == map[x := flight] && !Loose(flight))
  }

  lemma SoloBegin(st: Settings, s: State, torn: set<Id>, step: Step, s1: State, s2: State, verdict: Verdict)
    requires step.Attempt? && Accepts(s, step.delivery)
    requires verdict == st.work(s.documents[step.delivery.document].rowError, step.env)
    requires s1 == Begin(s, step.delivery) && s2 == SetStatus(s1, step.delivery.document, Processing)
    ensures var x := step.delivery.document;
      && Solo(st, s, torn, step, 1) == System(s1, map[x := Started(step.delivery, verdict)], torn)
      && Solo(st, s, torn, step, 2) == System(s2, map[x := Working(step.delivery, verdict)], torn)
  {
    var x := step.delivery.document;
    assert Solo(st, s, torn, step, 1) == System(s1, map[x := Started(step.delivery, verdict)], torn);
    SoloNext(st, s, torn, step, 1, s1, Started(step.delivery, verdict), torn);
  }

  lemma SoloShort(st: Settings, s: State, torn: set<Id>, step: Step, verdict: Verdict)
    requires step.Attempt? && Accepts(s, step.delivery) && !verdict.Store?
    requires verdict == st.work(s.documents[step.delivery.document].rowError, step.env)
    ensures var sys := Solo(st, s, torn, step, step.upto);
      && sys.store == At(VerdictTrace(st.exhaustionHandled, s, step.delivery, verdict), step.upto)
      && AttemptLeft(sys, step.delivery.document, torn)
  {
    var s1 := Begin(s, step.delivery);
    var s2 := SetStatus(s1, step.delivery.document, Processing);
    SoloBegin(st, s, torn, step, s1, s2, verdict);
    SoloNext(st, s, torn, step, 2, s2, Working(step.delivery, verdict), torn);
    if step.upto >= 3 {
      SoloEnds(st, s, torn, step, 3, step.upto);
    }
  }

  lemma SoloStore(st: Settings, s: State, torn: set<Id>, step: Step, verdict: Verdict)
    requires step.Attempt? && Accepts(s, step.delivery) && verdict.Store?
    requires verdict == st.work(s.documents[step.delivery.document].rowError, step.env)
    ensures var sys := Solo(st, s, torn, step, step.upto);
      && sys.store == At(VerdictTrace(st.exhaustionHandled, s, step.delivery, verdict), step.upto)
      && AttemptLeft(sys, step.delivery.document, torn)
  {
    var s1 := Begin(s, step.delivery);
    var s2 := SetStatus(s1, step.delivery.document, Processing);
    SoloBegin(st, s, torn, step, s1, s2, verdict);
    SoloStored(st, s, torn, step, s2, verdict);
    if step.upto >= 5 {
      SoloEnds(st, s, torn, step, 5, step.upto);
    }
  }

  lemma SoloStored(st: Settings, s: State, torn: set<Id>, step: Step, s2: State, verdict: Verdict)
    requires step.Attempt? && verdict.Store? && Accepts(s2, step.delivery)
    requires Solo(st, s, torn, step, 2)
      == System(s2, map[step.delivery.document := Working(step.delivery, verdict)], torn)
    ensures
      var j, x := step.delivery.job, step.delivery.document;
      var s3 := StoreChunks(s2, x, j, verdict.chunks);
      var s4 := SetJob(s3, j, s3.jobs[j].(status := Completed));
      && Solo(st, s, torn, step, 3) == System(s3, map[x := ChunksStored(step.delivery)], torn)
      && Solo(st, s, torn, step, 4) == System(s4, map[x := JobCompleted(step.delivery)], torn)
      && Solo(st, s, torn, step, 5) == System(SetStatus(s4, x, Indexed), map[], torn)
  {
    var s3 := StoreChunks(s2, step.delivery.document, step.delivery.job, verdict.chunks);
    var s4 := SetJob(s3, step.delivery.job, s3.jobs[step.delivery.job].(status := Completed));
    SoloNext(st, s, torn, step, 2, s2, Working(step.delivery, verdict), torn);
    SoloNext(st, s, torn, step, 3, s3, ChunksStored(step.delivery), torn);
    SoloNext(st, s, torn, step, 4, s4, JobCompleted(step.delivery), torn);
  }

  lemma SoloIsStep(st: Settings, s: State, torn: set<Id>, step: Step)
    ensures MakesStep(st, s, torn, step)
  {
    match step
    case Upload(_, _, _) => SoloUpload(st, s, torn, step);
    case Reindex(_, _, _) => SoloReindex(st, s, torn, step);
    case Delete(_, _, _) => SoloDelete(st, s, torn, step);
    case Attempt(_, _, _) => SoloAttempt(st, s, torn, step);
  }

  // ----- runs

  /** The invariant between operations. */
  ghost predicate RestInv(s: State, torn: set<Id>) {
    Inv(Mask(s, torn)) && forall d :: d in torn ==> Lost(s, d)
  }

  lemma RestIsSystem(s: State, torn: set<Id>)
    ensures RestInv(s, torn) <==> SystemInv(System(s, map[], torn))
  {
    assert Hidden(System(s, map[], torn)) == torn;
  }

  lemma {:induction false} SoloKeeps(st: Settings, s: State, torn: set<Id>, step: Step, k: nat)
    requires ValidSettings(st) && RestInv(s, torn) && Enabled(s, step)
    ensures SystemInv(Solo(st, s, torn, step, k))
  {
    RestIsSystem(s, torn);
    if k == 1 {
      MoveKeepsInvariantExactly(st, System(s, map[], torn), First(step));
    } else if k > 1 {
      SoloKeeps(st, s, torn, step, k - 1);
      MoveKeepsInvariantExactly(st, Solo(st, s, torn, step, k - 1), Commit(Subject(s, step)));
    }
  }

  /** Every step keeps the invariant, whatever dies; what a request tears is put on record. */
  lemma StepKeepsRest(st: Settings, s: State, torn: set<Id>, step: Step)
    requires ValidSettings(st) && RestInv(s, torn) && Enabled(s, step)
    ensures RestInv(Next(st, s, step), TornAfter(s, torn, step))
  {
    SoloKeeps(st, s, torn, step, step.upto);
    MoveKeepsInvariantExactly(st, Solo(st, s, torn, step, step.upto), Die(Subject(s, step)));
    SoloIsStep(st, s, torn, step);
    RestIsSystem(Next(st, s, step), TornAfter(s, torn, step));
  }

  /** All messages come from the queue; nothing else is asked of a run. */
  ghost predicate Delivered(st: Settings, s: State, steps: seq<Step>)
    decreases |steps|
  {
    steps == [] || (Enabled(s, steps[0]) && Delivered(st, Next(st, s, steps[0]), steps[1..]))
  }

  /** What is torn after a run. */
  ghost function TornBy(st: Settings, s: State, torn: set<Id>, steps: seq<Step>): set<Id>
    decreases |steps|
  {
    if steps == [] then torn else TornBy(st, Next(st, s, steps[0]), TornAfter(s, torn, steps[0]), steps[1..])
  }

  lemma {:induction false} RunKeepsInvariant(st: Settings, s: State, torn: set<Id>, steps: seq<Step>)
    requires ValidSettings(st) && RestInv(s, torn) && Delivered(st, s, steps)
    ensures RestInv(Run(st, s, steps), TornBy(st, s, torn, steps))
    decreases |steps|
  {
    if steps != [] {
      StepKeepsRest(st, s, torn, steps[0]);
      RunKeepsInvariant(st, Next(st, s, steps[0]), TornAfter(s, torn, steps[0]), steps[1..]);
    }
  }

  /**
   After every run, with any process dying after any of its commits: no document has an active
   job besides, or older than, its newest; and a document marked indexed is served by its
   completed newest job, with exactly the chunks that job embedded, numbered 0, 1, 2, ..., if
   and only if it is not torn: no request has died in a gap on it since a request last got past it.
   */
  lemma IndexedDocumentsAreServed(st: Settings, steps: seq<Step>, d: Id)
    requires ValidSettings(st) && Delivered(st, EMPTY, steps)
    ensures var s, torn := Run(st, EMPTY, steps), TornBy(st, EMPTY, {}, steps);
      && OneActive(s, d)
      && (d in s.documents && s.documents[d].status == Indexed ==>
        && (Served(s, d) <==> d !in torn)
        && (d !in torn ==> Contiguous(ChunksOf(s, d)))
        && NoActiveJob(s, d))
      && (d in torn ==> d in s.documents && s.documents[d].status == Indexed)
  {
    NothingHidden(EMPTY);
    assert Inv(EMPTY);
    RunKeepsInvariant(st, EMPTY, {}, steps);
    var s, torn := Run(st, EMPTY, steps), TornBy(st, EMPTY, {}, steps);
    RestIsSystem(s, torn);
    ServedNow(System(s, map[], torn), d);
  }

  /** Without a request that dies in a gap nothing is ever torn, and the invariant holds as it is. */
  lemma {:induction false} UntornRun(st: Settings, s: State, steps: seq<Step>)
    requires ValidSettings(st) && Inv(s) && Delivered(st, s, steps) && NoneTorn(st, s, steps)
    ensures Inv(Run(st, s, steps))
    decreases |steps|
  {
    if steps != [] {
      StepKeepsInvariantExactly(st, s, steps[0]);
      UntornRun(st, Next(st, s, steps[0]), steps[1..]);
    }
  }

  ghost predicate NoneTorn(st: Settings, s: State, steps: seq<Step>)
    decreases |steps|
  {
    steps == [] || (!Torn(s, steps[0]) && NoneTorn(st, Next(st, s, steps[0]), steps[1..]))
  }

  /** A whole re-index heals a torn document: the next storing attempt leaves it indexed and served. */
  lemma ReindexHeals(st: Settings, s: State, torn: set<Id>, w: Id, d: Id, upto: nat)
    requires ValidSettings(st) && RestInv(s, torn) && d in torn && Found(s, w, d) && upto >= 2
    ensures d !in TornAfter(s, torn, Reindex(w, d, upto))
    ensures Next(st, s, Reindex(w, d, upto)).documents[d].status == Processing
  {
    MaskedOneActive(s, torn, d);
    MaskedReferences(s, torn);
    LostIsIdle(s, d);
    assert !InProgress(s.jobs, w, d) by {
      assert forall j :: Newest(s.jobs, w, d, j) ==> JobOf(s, d, j);
    }
  }
}
