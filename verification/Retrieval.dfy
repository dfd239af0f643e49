/**
 Retrieval: embedding the query through a cache, taking the nearest chunks, keeping those above
 the score threshold, and attaching document metadata through a per-search cache.

 Vector search is an exact ordering by distance; rows at equal distance may come in any order.
 */
module Retrieval {
  import opened Wrappers
  import opened Strings

  type Id = nat
  type Vector = seq<real>

  const CONTENT_PREVIEW_MAX_LENGTH: nat := 200

  /** A candidate row: a chunk and its cosine distance from the query. */
  datatype Match = Match(chunk: Id, document: Id, content: string, chunkMetadata: Option<string>, distance: real) {
    function Score(): real {
      1.0 - distance
    }
  }

  datatype Document = Document(title: string, sourceType: string, fileType: string)

  datatype DocumentMetadata = DocumentMetadata(document: Id, found: Option<Document>, chunkMetadata: Option<string>)

  datatype RetrievedChunk = RetrievedChunk(chunk: Id, preview: string, score: real, metadata: DocumentMetadata)

  datatype SearchResult = SearchResult(chunks: seq<RetrievedChunk>, insufficientContext: bool)

  // ----- ranking

  ghost predicate ByDistance(s: seq<Match>) {
    forall i, j :: 0 <= i < j < |s| ==> s[i].distance <= s[j].distance
  }

  function Take<T>(s: seq<T>, k: nat): seq<T> {
    if k < |s| then s[..k] else s
  }

  function Above(s: seq<Match>, threshold: real): seq<Match> {
    if s == [] then []
    else (if s[0].Score() >= threshold then [s[0]] else []) + Above(s[1..], threshold)
  }

  /** Stable insertion of an element behind everything that scores at least as high. */
  function Insert(x: Match, s: seq<Match>): seq<Match> {
    if s != [] && x.Score() <= s[|s| - 1].Score() then s + [x]
    else if s == [] then [x]
    else Insert(x, s[..|s| - 1]) + [s[|s| - 1]]
  }

  /** A stable sort, highest score first. */
  function SortByScore(s: seq<Match>): seq<Match> {
    if s == [] then [] else Insert(s[|s| - 1], SortByScore(s[..|s| - 1]))
  }

  /** On rows in distance order the matches above the threshold are a prefix. */
  lemma {:induction false} AboveIsPrefix(s: seq<Match>, threshold: real) returns (n: nat)
    requires ByDistance(s)
    ensures n <= |s| && Above(s, threshold) == s[..n]
    ensures forall i :: 0 <= i < |s| ==> (s[i].Score() >= threshold <==> i < n)
  {
    if s == [] {
      n := 0;
    } else if s[0].Score() >= threshold {
      n := AboveIsPrefix(s[1..], threshold);
      n := n + 1;
      assert s[..n] == [s[0]] + s[1..][..n - 1];
    } else {
      n := AboveIsPrefix(s[1..], threshold);
      assert forall i :: 0 <= i < |s[1..]| ==> s[1..][i].Score() < threshold;
    }
  }

  /** Taking the nearest k and then filtering is filtering and then taking the nearest k. */
  lemma {:induction false} TopKCommutesWithThreshold(ranked: seq<Match>, k: nat, threshold: real)
    requires ByDistance(ranked)
    ensures Above(Take(ranked, k), threshold) == Take(Above(ranked, threshold), k)
  {
    if ranked != [] && k > 0 {
      var top, rest := Take(ranked, k), ranked[1..];
      assert top[1..] == Take(rest, k - 1) && top[0] == ranked[0];
      TopKCommutesWithThreshold(rest, k - 1, threshold);
      if ranked[0].Score() < threshold {
        NoneAbove(rest, threshold);
        NoneAbove(top[1..], threshold);
      }
    }
  }

  lemma {:induction false} NoneAbove(s: seq<Match>, threshold: real)
    requires forall i :: 0 <= i < |s| ==> s[i].Score() < threshold
    ensures Above(s, threshold) == []
  {
    if s != [] {
      NoneAbove(s[1..], threshold);
    }
  }

  /** Sorting by score changes nothing about matches that are in distance order. */
  lemma {:induction false} SortLeavesRankedAlone(s: seq<Match>)
    requires ByDistance(s)
    ensures SortByScore(s) == s
  {
    if s != [] {
      SortLeavesRankedAlone(s[..|s| - 1]);
    }
  }

  /** What search makes of the distance order: the best of everything above the threshold. */
  lemma RankingAgrees(ranked: seq<Match>, k: nat, threshold: real)
    requires ByDistance(ranked) && k >= 1
    ensures SortByScore(Above(Take(ranked, k), threshold)) == Take(Above(ranked, threshold), k)
    ensures Take(Above(ranked, threshold), k) == [] <==> forall i :: 0 <= i < |ranked| ==> ranked[i].Score() < threshold
  {
    TopKCommutesWithThreshold(ranked, k, threshold);
    var n := AboveIsPrefix(ranked, threshold);
    var kept := Take(ranked[..n], k);
    assert kept == ranked[..|kept|];
    SortLeavesRankedAlone(kept);
    if ranked != [] {
      assert n > 0 <==> ranked[0].Score() >= threshold;
    }
  }

  /**
   The best of the rows: at most `k`, all of them at least as good as the threshold, best first;
   a row `m` that is left out is below the threshold, or `k` rows at least as good are taken.
   */
  lemma BestExactly(ranked: seq<Match>, threshold: real, k: nat, m: Match)
    requires ByDistance(ranked)
    ensures
      var best := Take(Above(ranked, threshold), k);
      && |best| <= k && ByDistance(best)
      && (forall i :: 0 <= i < |best| ==> 1.0 - best[i].distance >= threshold)
      && multiset(best)[m] <= multiset(ranked)[m]
      && (multiset(best)[m] < multiset(ranked)[m] ==>
          || 1.0 - m.distance < threshold
          || (|best| == k && forall i :: 0 <= i < |best| ==> best[i].distance <= m.distance))
  {
    var j := BestIsPrefix(ranked, threshold, k);
    PrefixCounts(ranked, j, m);
    if multiset(ranked[..j])[m] < multiset(ranked)[m] {
      var i := LeftOut(ranked, j, m);
    }
  }

  lemma BestIsPrefix(ranked: seq<Match>, threshold: real, k: nat) returns (j: nat)
    requires ByDistance(ranked)
    ensures j <= |ranked| && j <= k && Take(Above(ranked, threshold), k) == ranked[..j]
    ensures forall i :: 0 <= i < j ==> 1.0 - ranked[i].distance >= threshold
    ensures j == k || forall i :: j <= i < |ranked| ==> 1.0 - ranked[i].distance < threshold
  {
    var n := AboveIsPrefix(ranked, threshold);
    j := if k < n then k else n;
    assert Take(ranked[..n], k) == ranked[..j];
    assert forall i :: 0 <= i < |ranked| ==> ranked[i].Score() == 1.0 - ranked[i].distance;
  }

  lemma PrefixCounts(s: seq<Match>, j: nat, m: Match)
    requires j <= |s|
    ensures multiset(s)[m] == multiset(s[..j])[m] + multiset(s[j..])[m]
  {
    assert s == s[..j] + s[j..];
    assert multiset(s[..j] + s[j..]) == multiset(s[..j]) + multiset(s[j..]);
  }

  /** A row that occurs more often in all rows than among the first `j` occurs behind them. */
  lemma LeftOut(s: seq<Match>, j: nat, m: Match) returns (i: nat)
    requires j <= |s| && multiset(s[..j])[m] < multiset(s)[m]
    ensures j <= i < |s| && s[i] == m
  {
    PrefixCounts(s, j, m);
    assert m in s[j..];
    i :| j <= i < |s| && s[i] == m;
  }

  /** What the sort does to any list: the same matches, highest score first. */
  lemma SortIsSort(s: seq<Match>)
    ensures multiset(SortByScore(s)) == multiset(s)
    ensures Descending(SortByScore(s))
  {
    SortKeepsMatches(s);
    SortOrders(s);
  }

  lemma {:induction false} SortKeepsMatches(s: seq<Match>)
    ensures multiset(SortByScore(s)) == multiset(s)
  {
    if s != [] {
      var rest, last := s[..|s| - 1], s[|s| - 1];
      SortKeepsMatches(rest);
      InsertKeepsMatches(last, SortByScore(rest));
      assert s == rest + [last];
    }
  }

  lemma {:induction false} SortOrders(s: seq<Match>)
    ensures Descending(SortByScore(s))
  {
    if s != [] {
      var sorted, last := SortByScore(s[..|s| - 1]), s[|s| - 1];
      SortOrders(s[..|s| - 1]);
      InsertOrders(last, sorted);
    }
  }

  lemma InsertOrders(x: Match, s: seq<Match>)
    requires Descending(s)
    ensures Descending(Insert(x, s))
  {
    if s == [] || x.Score() <= s[|s| - 1].Score() {
      InsertKeepsOrder(x, s, x.Score());
    } else {
      InsertKeepsOrder(x, s, s[|s| - 1].Score());
    }
  }

  ghost predicate Descending(s: seq<Match>) {
    forall i, j :: 0 <= i < j < |s| ==> s[i].Score() >= s[j].Score()
  }

  lemma {:induction false} InsertKeepsMatches(x: Match, s: seq<Match>)
    ensures multiset(Insert(x, s)) == multiset(s) + multiset{x}
  {
    if s != [] && !(x.Score() <= s[|s| - 1].Score()) {
      InsertKeepsMatches(x, s[..|s| - 1]);
      assert s == s[..|s| - 1] + [s[|s| - 1]];
    }
  }

  lemma {:induction false} InsertKeepsOrder(x: Match, s: seq<Match>, bound: real)
    requires Descending(s) && x.Score() >= bound && forall i :: 0 <= i < |s| ==> s[i].Score() >= bound
    ensures Descending(Insert(x, s)) && forall i :: 0 <= i < |Insert(x, s)| ==> Insert(x, s)[i].Score() >= bound
  {
    if s != [] && !(x.Score() <= s[|s| - 1].Score()) {
      InsertKeepsOrder(x, s[..|s| - 1], s[|s| - 1].Score());
    }
  }

  // ----- metadata

  /** A fresh lookup for one match. */
  function LoadMetadata(documents: map<Id, Document>, m: Match): DocumentMetadata {
    DocumentMetadata(m.document, if m.document in documents then Some(documents[m.document]) else None, m.chunkMetadata)
  }

  /** The position of the best-ranked match of document `d`, or the number of matches. */
  function Leader(matches: seq<Match>, d: Id): (k: nat)
    ensures k <= |matches| && (k < |matches| ==> matches[k].document == d)
    ensures forall h :: 0 <= h < k ==> matches[h].document != d
  {
    if matches == [] || matches[0].document == d then 0 else 1 + Leader(matches[1..], d)
  }

  lemma LeaderExists(matches: seq<Match>, i: nat)
    requires i < |matches|
    ensures Leader(matches, matches[i].document) <= i
  {
  }

  lemma LeaderAt(matches: seq<Match>, n: nat, d: Id)
    requires n < |matches|
    ensures Leader(matches, d) <= n <==> Leader(matches, d) < n || d == matches[n].document
  {
    LeaderExists(matches, n);
  }

  function ContentPreview(content: string): string {
    if |content| <= CONTENT_PREVIEW_MAX_LENGTH then content else content[..CONTENT_PREVIEW_MAX_LENGTH]
  }

  /** The metadata that the search attaches to every match of document `d`. */
  function SharedMetadata(documents: map<Id, Document>, matches: seq<Match>, d: Id): DocumentMetadata
    requires Leader(matches, d) < |matches|
  {
    LoadMetadata(documents, matches[Leader(matches, d)])
  }

  /** The chunk made of match `i`: its own text and score, and the metadata of its document's leader. */
  function Retrieved(documents: map<Id, Document>, matches: seq<Match>, i: nat): RetrievedChunk
    requires i < |matches|
  {
    LeaderExists(matches, i);
    RetrievedChunk(matches[i].chunk, ContentPreview(matches[i].content), matches[i].Score(),
      SharedMetadata(documents, matches, matches[i].document))
  }

  /** The cache holds the leader's metadata of every document among the first `n` matches, and nothing else. */
  ghost predicate CacheOf(documents: map<Id, Document>, matches: seq<Match>, n: nat, cache: map<Id, DocumentMetadata>)
    requires n <= |matches|
  {
    && (forall d :: d in cache <==> Leader(matches, d) < n)
    && (forall d :: d in cache ==> cache[d] == SharedMetadata(documents, matches, d))
  }

  /** The next match's document is cached already, or the match is its leader. */
  lemma CacheStep(documents: map<Id, Document>, matches: seq<Match>, n: nat, cache: map<Id, DocumentMetadata>)
    requires n < |matches| && CacheOf(documents, matches, n, cache)
    ensures var d := matches[n].document;
      if d in cache then CacheOf(documents, matches, n + 1, cache)
      else CacheOf(documents, matches, n + 1, cache[d := LoadMetadata(documents, matches[n])])
  {
    forall d
      ensures Leader(matches, d) < n + 1 <==> d in cache || d == matches[n].document
    {
      LeaderAt(matches, n, d);
    }
  }

  /**
   Every match becomes a chunk, in order.  Its document data are those of a fresh lookup, but
   its chunk metadata are those of the best-ranked match of the same document.
   */
  method BuildRetrievedChunks(documents: map<Id, Document>, matches: seq<Match>)
    returns (retrieved: seq<RetrievedChunk>)
    ensures |retrieved| == |matches|
    ensures forall i :: 0 <= i < |matches| ==> retrieved[i] == Retrieved(documents, matches, i)
  {
    var documentCache: map<Id, DocumentMetadata> := map[];
    retrieved := [];
    for n := 0 to |matches|
      invariant |retrieved| == n
      invariant CacheOf(documents, matches, n, documentCache)
      invariant forall i :: 0 <= i < n ==> retrieved[i] == Retrieved(documents, matches, i)
    {
      var m := matches[n];
      CacheStep(documents, matches, n, documentCache);
      if m.document !in documentCache {
        documentCache := documentCache[m.document := LoadMetadata(documents, m)];
      }
      retrieved := retrieved + [RetrievedChunk(m.chunk, ContentPreview(m.content), m.Score(),
        documentCache[m.document])];
    }
  }

  /**
   Every chunk has its own text, cut to the length of a preview, and its own score.  Its cached
   data agree with a fresh lookup of its document; the whole metadata do so exactly when the
   leader's chunk metadata do.
   */
  lemma CacheAgreesWithLookup(documents: map<Id, Document>, matches: seq<Match>, i: nat)
    requires i < |matches|
    ensures
      var m, r := matches[i], Retrieved(documents, matches, i);
      var k := Leader(matches, m.document);
      && k <= i
      && r.chunk == m.chunk && r.score == 1.0 - m.distance
      && r.preview <= m.content && (|r.preview| == CONTENT_PREVIEW_MAX_LENGTH < |m.content| || r.preview == m.content)
      && r.metadata.document == m.document && (r.metadata.found.Some? <==> m.document in documents)
      && (m.document in documents ==> r.metadata.found.value == documents[m.document])
      && r.metadata.chunkMetadata == matches[k].chunkMetadata
      && (r.metadata == LoadMetadata(documents, m) <==> matches[k].chunkMetadata == m.chunkMetadata)
  {
    LeaderExists(matches, i);
  }

  // ----- search

  const MAX_TOP_K: nat := 50
  const MAX_FILTER_SOURCE_TYPE_LENGTH: nat := 64

  datatype SearchError = InvalidQuery | InvalidFilter | QueryEmbeddingFailed

  datatype Filters = Filters(fileType: Option<string>, sourceType: Option<string>, document: Option<Id>)

  const NO_FILTERS := Filters(None, None, None)

  predicate IsFileType(s: string) {
    s == "md" || s == "txt" || s == "pdf" || s == "json"
  }

  /** One of the given filters has a text that is not allowed. */
  ghost predicate HasBadFilter(lower: string -> string, filters: Option<Filters>) {
    && filters.Some?
    && ((filters.value.fileType.Some? && lower(Strip(filters.value.fileType.value)) !in {"md", "txt", "pdf", "json"})
        || (filters.value.sourceType.Some?
            && !(1 <= |Strip(filters.value.sourceType.value)| <= MAX_FILTER_SOURCE_TYPE_LENGTH)))
  }

  /** The filters with their texts stripped, and the file type lowered; `None` if one of them is not allowed. */
  function NormalizeFilters(lower: string -> string, filters: Filters): Option<Filters> {
    var fileType := if filters.fileType.Some? then Some(lower(Strip(filters.fileType.value))) else None;
    var sourceType := if filters.sourceType.Some? then Some(Strip(filters.sourceType.value)) else None;
    if fileType.Some? && !IsFileType(fileType.value) then None
    else if sourceType.Some? && (sourceType.value == "" || |sourceType.value| > MAX_FILTER_SOURCE_TYPE_LENGTH) then None
    else Some(Filters(fileType, sourceType, filters.document))
  }

  /** The conditions of the query; those on the document join its row. */
  predicate Passes(documents: map<Id, Document>, filters: Filters, m: Match) {
    && (filters.fileType.Some? || filters.sourceType.Some? ==> m.document in documents)
    && (filters.fileType.Some? ==> documents[m.document].fileType == filters.fileType.value)
    && (filters.sourceType.Some? ==> documents[m.document].sourceType == filters.sourceType.value)
    && (filters.document.Some? ==> m.document == filters.document.value)
  }

  /** Document `d` is what the filters ask for, as far as they ask. */
  ghost predicate Meets(documents: map<Id, Document>, lower: string -> string, filters: Option<Filters>, d: Id) {
    filters.Some? ==>
      && (filters.value.fileType.Some? ==>
          d in documents && documents[d].fileType == lower(Strip(filters.value.fileType.value)))
      && (filters.value.sourceType.Some? ==>
          d in documents && documents[d].sourceType == Strip(filters.value.sourceType.value))
      && (filters.value.document.Some? ==> d == filters.value.document.value)
  }

  /** The filters that a search applies, if they are allowed. */
  function Applied(lower: string -> string, filters: Option<Filters>): Option<Filters> {
    if filters.Some? then NormalizeFilters(lower, filters.value) else Some(NO_FILTERS)
  }

  lemma AppliedExactly(documents: map<Id, Document>, lower: string -> string, filters: Option<Filters>, m: Match)
    ensures Applied(lower, filters).None? <==> HasBadFilter(lower, filters)
    ensures Applied(lower, filters).Some? ==>
      (Passes(documents, Applied(lower, filters).value, m) <==> Meets(documents, lower, filters, m.document))
  {
  }

  function Filtered(documents: map<Id, Document>, filters: Filters, rows: seq<Match>): seq<Match> {
    if rows == [] then []
    else
      (if Passes(documents, filters, rows[0]) then [rows[0]] else []) + Filtered(documents, filters, rows[1..])
  }

  /** Exactly the rows whose document meets the filters remain, each as often as before. */
  lemma FilteredExactly(documents: map<Id, Document>, lower: string -> string, filters: Option<Filters>,
      rows: seq<Match>, m: Match)
    requires Applied(lower, filters).Some?
    ensures multiset(Filtered(documents, Applied(lower, filters).value, rows))[m]
      == if Meets(documents, lower, filters, m.document) then multiset(rows)[m] else 0
  {
    AppliedExactly(documents, lower, filters, m);
    PassingRemain(documents, Applied(lower, filters).value, rows, m);
  }

  lemma {:induction false} PassingRemain(documents: map<Id, Document>, filters: Filters, rows: seq<Match>, m: Match)
    ensures var n := multiset(rows)[m];
      multiset(Filtered(documents, filters, rows))[m] == if Passes(documents, filters, m) then n else 0
  {
    if rows != [] {
      var kept := if Passes(documents, filters, rows[0]) then [rows[0]] else [];
      PassingRemain(documents, filters, rows[1..], m);
      assert rows == [rows[0]] + rows[1..];
      assert multiset(kept + Filtered(documents, filters, rows[1..]))
        == multiset(kept) + multiset(Filtered(documents, filters, rows[1..]));
    }
  }

  lemma {:induction false} FilteredStaysRanked(documents: map<Id, Document>, filters: Filters, rows: seq<Match>)
    requires ByDistance(rows)
    ensures ByDistance(Filtered(documents, filters, rows))
  {
    if rows != [] {
      var rest := Filtered(documents, filters, rows[1..]);
      FilteredStaysRanked(documents, filters, rows[1..]);
      forall i | 0 <= i < |rest|
        ensures rows[0].distance <= rest[i].distance
      {
        PassingRemain(documents, filters, rows[1..], rest[i]);
        FurtherBehind(rows, rest[i]);
      }
      PutFirst(rows[0], rest);
    }
  }

  lemma FurtherBehind(rows: seq<Match>, m: Match)
    requires rows != [] && ByDistance(rows) && multiset(rows[1..])[m] > 0
    ensures rows[0].distance <= m.distance
  {
    assert m in rows[1..];
  }

  lemma PutFirst(m: Match, rest: seq<Match>)
    requires ByDistance(rest) && forall i :: 0 <= i < |rest| ==> m.distance <= rest[i].distance
    ensures ByDistance([m] + rest)
  {
  }

  lemma BadFilterExactly(lower: string -> string, filters: Option<Filters>)
    ensures Applied(lower, filters).None? <==> HasBadFilter(lower, filters)
  {
  }

  /** Every chunk that is found belongs to a document that meets the filters, and scores at least the threshold. */
  lemma FoundMeet(documents: map<Id, Document>, lower: string -> string, filters: Option<Filters>, rows: seq<Match>,
      threshold: real, k: nat)
    requires ByDistance(rows) && Applied(lower, filters).Some?
    ensures
      var ranked := Filtered(documents, Applied(lower, filters).value, rows);
      var wanted := Take(Above(ranked, threshold), k);
      && |wanted| <= k
      && forall i :: 0 <= i < |wanted| ==>
        var chunk := Retrieved(documents, wanted, i);
        Meets(documents, lower, filters, chunk.metadata.document) && chunk.score >= threshold
  {
    var ranked := Filtered(documents, Applied(lower, filters).value, rows);
    var wanted := Take(Above(ranked, threshold), k);
    assert |wanted| <= k;
    FilteredStaysRanked(documents, Applied(lower, filters).value, rows);
    forall i | 0 <= i < |wanted|
      ensures var chunk := Retrieved(documents, wanted, i);
        Meets(documents, lower, filters, chunk.metadata.document) && chunk.score >= threshold
    {
      CacheAgreesWithLookup(documents, wanted, i);
      FilteredExactly(documents, lower, filters, rows, wanted[i]);
      BestExactly(ranked, threshold, k, wanted[i]);
      assert multiset(wanted)[wanted[i]] > 0;
    }
  }

  datatype EmbedReply = Embedded(vector: Vector) | EmbeddingFailed

  class RetrievalService {
    const provider: (string, nat) -> EmbedReply
    var embeddingCache: map<string, Vector>
    var providerCalls: nat

    constructor (provider: (string, nat) -> EmbedReply)
      ensures this.provider == provider && embeddingCache == map[] && providerCalls == 0
    {
      this.provider := provider;
      embeddingCache, providerCalls := map[], 0;
    }

    /** Asks the provider only for queries that it has not embedded before. */
    method EmbedQuery(query: string) returns (r: Option<Vector>)
      modifies this
      ensures query in old(embeddingCache) ==>
        && r == Some(old(embeddingCache)[query])
        && embeddingCache == old(embeddingCache) && providerCalls == old(providerCalls)
      ensures query !in old(embeddingCache) ==>
        var reply := provider(query, old(providerCalls));
        && providerCalls == old(providerCalls) + 1
        && (reply.Embedded? ==> r == Some(reply.vector) && embeddingCache == old(embeddingCache)[query := reply.vector])
        && (reply.EmbeddingFailed? ==> r == None && embeddingCache == old(embeddingCache))
    {
      if query in embeddingCache {
        return Some(embeddingCache[query]);
      }
      var reply := provider(query, providerCalls);
      providerCalls := providerCalls + 1;
      if reply.EmbeddingFailed? {
        return None;
      }
      embeddingCache := embeddingCache[query := reply.vector];
      return Some(reply.vector);
    }

    /**
     Searches among `stored(vector)`, the rows of the workspace in order of their distance from
     the vector, those that pass the filters.
     */
    method Search(lower: string -> string, text: string, topK: int, threshold: real, filters: Option<Filters>,
        documents: map<Id, Document>, stored: Vector -> seq<Match>)
      returns (r: Result<SearchResult, SearchError>)
      requires forall v :: ByDistance(stored(v))
      modifies this
      ensures r == Err(InvalidQuery) <==> Strip(text) == "" || topK < 1 || topK > MAX_TOP_K
      ensures r == Err(InvalidFilter) <==> Strip(text) != "" && 1 <= topK <= MAX_TOP_K && HasBadFilter(lower, filters)
      ensures r == Err(InvalidQuery) || r == Err(InvalidFilter) ==>
        embeddingCache == old(embeddingCache) && providerCalls == old(providerCalls)
      ensures r == Err(QueryEmbeddingFailed) <==>
        Strip(text) != "" && 1 <= topK <= MAX_TOP_K && !HasBadFilter(lower, filters) && Strip(text) !in embeddingCache
      ensures r.Ok? ==>
        && Applied(lower, filters).Some?
        && var ranked := Filtered(documents, Applied(lower, filters).value, stored(embeddingCache[Strip(text)]));
          var wanted := Take(Above(ranked, threshold), topK);
          && |r.value.chunks| == |wanted|
          && (forall i :: 0 <= i < |wanted| ==> r.value.chunks[i] == Retrieved(documents, wanted, i))
          && (r.value.insufficientContext <==> forall i :: 0 <= i < |ranked| ==> ranked[i].Score() < threshold)
      ensures r.Ok? ==>
        && |r.value.chunks| <= topK
        && forall i :: 0 <= i < |r.value.chunks| ==>
          var chunk := r.value.chunks[i];
          Meets(documents, lower, filters, chunk.metadata.document) && chunk.score >= threshold
    {
      if Strip(text) == "" || topK < 1 || topK > MAX_TOP_K {
        return Err(InvalidQuery);
      }
      BadFilterExactly(lower, filters);
      var applied := NO_FILTERS;
      if filters.Some? {
        var normalized := NormalizeFilters(lower, filters.value);
        if normalized.None? {
          return Err(InvalidFilter);
        }
        applied := normalized.value;
      }
      var vector := EmbedQuery(Strip(text));
      if vector.None? {
        return Err(QueryEmbeddingFailed);
      }
      FilteredStaysRanked(documents, applied, stored(vector.value));
      var ranked := Filtered(documents, applied, stored(vector.value));
      var similar := Take(ranked, topK);
      var qualifying := Above(similar, threshold);
      RankingAgrees(ranked, topK, threshold);
      qualifying := SortByScore(qualifying);
      var chunks := BuildRetrievedChunks(documents, qualifying);
      FoundMeet(documents, lower, filters, stored(vector.value), threshold, topK);
      return Ok(SearchResult(chunks, |chunks| == 0));
    }
  }
}
