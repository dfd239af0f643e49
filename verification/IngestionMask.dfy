/**
 Documents that a dead or unfinished request has left marked indexed without what they serve.
 Hiding their mark gives a state that satisfies the invariant of the protocol.
 */
module IngestionMask {
  import opened Ingestion
  import opened IngestionInvariant

  /** The state in which no document of `hidden` is marked indexed. */
  function Mask(s: State, hidden: set<Id>): State {
    s.(documents := map d | d in s.documents ::
      if d in hidden then s.documents[d].(status := Processing) else s.documents[d])
  }

  lemma MaskAgrees(s: State, hidden: set<Id>, d: Id)
    ensures var m := Mask(s, hidden);
      && (d in m.documents <==> d in s.documents)
      && (d in s.documents ==> m.documents[d].workspace == s.documents[d].workspace)
      && (d in s.documents && d !in hidden ==> m.documents[d] == s.documents[d])
      && (d in s.documents && d in hidden ==> m.documents[d].status == Processing)
  {
  }

  lemma NothingHidden(s: State)
    ensures Mask(s, {}) == s
  {
    assert Mask(s, {}).documents == s.documents;
  }

  /** Commits that leave the documents alone commute with masking. */
  lemma MaskRest(s: State, s': State, hidden: set<Id>)
    requires s'.documents == s.documents
    ensures Mask(s', hidden) == s'.(documents := Mask(s, hidden).documents)
  {
  }

  /** So does setting the status of a document, which then need not be hidden any more. */
  lemma MaskStatus(s: State, hidden: set<Id>, x: Id, status: DocumentStatus)
    requires x in s.documents
    ensures Mask(SetStatus(s, x, status), hidden - {x}) == SetStatus(Mask(s, hidden), x, status)
  {
    var a, b := Mask(SetStatus(s, x, status), hidden - {x}), SetStatus(Mask(s, hidden), x, status);
    assert a.documents.Keys == b.documents.Keys;
    assert forall d :: d in a.documents ==> a.documents[d] == b.documents[d];
  }

  /** A document that is cleared and hidden: in the masked state its status is set first. */
  lemma MaskClear(s: State, hidden: set<Id>, x: Id)
    requires x in s.documents
    ensures Mask(ClearChunks(s, x), hidden + {x}) == ClearChunks(SetStatus(Mask(s, hidden), x, Processing), x)
  {
    var a, b := Mask(ClearChunks(s, x), hidden + {x}), ClearChunks(SetStatus(Mask(s, hidden), x, Processing), x);
    assert a.documents.Keys == b.documents.Keys;
    assert forall d :: d in a.documents ==> a.documents[d] == b.documents[d];
  }

  lemma MaskDrop(s: State, hidden: set<Id>, x: Id)
    requires x in s.documents
    ensures Mask(DropDocument(s, x), hidden - {x}) == DropDocument(Mask(s, hidden), x)
  {
    var a, b := Mask(DropDocument(s, x), hidden - {x}), DropDocument(Mask(s, hidden), x);
    assert a.documents.Keys == b.documents.Keys;
    assert forall d :: d in a.documents ==> a.documents[d] == b.documents[d];
  }

  lemma MaskAdd(s: State, hidden: set<Id>, document: Document)
    requires s.nextId !in s.documents && s.nextId !in hidden
    ensures Mask(AddDocument(s, document), hidden) == AddDocument(Mask(s, hidden), document)
  {
    var a, b := Mask(AddDocument(s, document), hidden), AddDocument(Mask(s, hidden), document);
    assert a.documents.Keys == b.documents.Keys;
    assert forall d :: d in a.documents ==> a.documents[d] == b.documents[d];
  }

  lemma MaskedAccepts(s: State, hidden: set<Id>, delivery: Delivery)
    ensures Accepts(Mask(s, hidden), delivery) <==> Accepts(s, delivery)
  {
    MaskAgrees(s, hidden, delivery.document);
  }

  /** Ids and messages of the masked state are those of the state. */
  lemma MaskedReferences(s: State, hidden: set<Id>)
    requires Inv(Mask(s, hidden))
    ensures WellReferenced(s)
  {
    var m := Mask(s, hidden);
    assert m.documents.Keys == s.documents.Keys;
    forall j | j in s.jobs
      ensures j < s.nextId && Found(s, s.jobs[j].workspace, s.jobs[j].document)
    {
      MaskAgrees(s, hidden, s.jobs[j].document);
    }
  }

  /** Masking does not touch a document that is not hidden. */
  lemma MaskedDocument(s: State, hidden: set<Id>, x: Id)
    requires x !in hidden
    ensures SameDocument(s, Mask(s, hidden), x) && SameDocument(Mask(s, hidden), s, x)
  {
    MaskAgrees(s, hidden, x);
  }

  lemma MaskedOneActive(s: State, hidden: set<Id>, d: Id)
    requires Inv(Mask(s, hidden))
    ensures OneActive(s, d)
  {
    var m := Mask(s, hidden);
    assert DocumentOk(m, d);
    MaskedReferences(s, hidden);
    assert forall j: Id :: JobOf(s, d, j) <==> JobOf(m, d, j);
    MaskAgrees(s, hidden, d);
    if d !in s.documents {
      assert forall j: Id :: !JobOf(s, d, j);
    }
  }

  // ----- what hidden documents have lost

  /** Marked indexed, but without chunks; and the newest job, if there is one, is completed and embedded some. */
  ghost predicate Lost(s: State, d: Id) {
    && d in s.documents && s.documents[d].status == Indexed && d !in s.chunks
    && forall j :: Newest(s.jobs, s.documents[d].workspace, d, j) ==>
      s.jobs[j].status == Completed && j in s.produced && s.produced[j] != []
  }

  lemma LostIsNotServed(s: State, d: Id)
    requires Lost(s, d)
    ensures !Served(s, d)
  {
  }

  /** No message about a lost document is accepted: none of its jobs is active. */
  lemma LostIsIdle(s: State, d: Id)
    requires Lost(s, d) && OneActive(s, d) && WellReferenced(s)
    ensures NoActiveJob(s, d)
  {
    forall j | JobOf(s, d, j)
      ensures !Active(s.jobs[j])
    {
      if Active(s.jobs[j]) {
        assert forall k :: k in s.jobs && s.jobs[k].document == d ==> JobOf(s, d, k);
        assert Newest(s.jobs, s.documents[d].workspace, d, j);
      }
    }
  }

  lemma LostStays(s: State, s': State, d: Id)
    requires SameDocument(s, s', d) && (d in s.chunks <==> d in s'.chunks) && Lost(s, d)
    ensures Lost(s', d)
  {
    var w := s.documents[d].workspace;
    forall j | Newest(s'.jobs, w, d, j)
      ensures s'.jobs[j].status == Completed && j in s'.produced && s'.produced[j] != []
    {
      SameIsSymmetric(s, s', d);
      SameKeepsNewest(s', s, w, d, j);
      assert JobOf(s', d, j) && JobOf(s, d, j);
    }
  }

  lemma SameIsSymmetric(s: State, s': State, d: Id)
    requires SameDocument(s, s', d)
    ensures SameDocument(s', s, d)
  {
  }
}
