/** What ingestion guarantees to retrieval. The chunk table joined with the documents
    may be listed in any order. */
module EndToEnd {
  import opened Chunker
  import opened Fusion
  import opened IndexAgreement
  import opened Ingestion
  import opened Lists
  import opened Ranking
  import opened Text
  import opened Vectors
  import opened VectorStore
  import opened Wrappers
  import R = Retrieval

  function JoinOf(s: State, row: ChunkRow): R.JoinedRow
    requires row.documentId in s.tables.documents
  {
    var document := s.tables.documents[row.documentId];
    R.JoinedRow(row.id, row.documentId, row.ordinal, row.text, row.page, row.section,
                document.workspaceId, document.deleted)
  }

  predicate Comes(s: State, joined: R.JoinedRow, j: nat) {
    && j < |s.tables.chunks| && s.tables.chunks[j].documentId in s.tables.documents
    && joined == JoinOf(s, s.tables.chunks[j])
  }

  ghost predicate Genuine(s: State, joined: R.JoinedRow) { exists j: nat :: Comes(s, joined, j) }

  predicate Listed(s: State, rows: seq<R.JoinedRow>, j: nat) { exists k :: 0 <= k < |rows| && Comes(s, rows[k], j) }

  /** `rows` lists the join: every row comes from a chunk, every chunk has one row. */
  ghost predicate IsJoin(s: State, rows: seq<R.JoinedRow>) {
    && (forall j, k :: 0 <= j < k < |rows| ==> rows[j].chunkId != rows[k].chunkId)
    && (forall k :: 0 <= k < |rows| ==> Genuine(s, rows[k]))
    && (forall j: nat :: j < |s.tables.chunks| ==> Listed(s, rows, j))
  }

  // ----- Tenant isolation of citations -----

  lemma DistinctThrough(keys: seq<Key>, best: seq<nat>, from: seq<nat>)
    requires IsTop(keys, best) && |from| == |keys|
    requires forall j, k :: 0 <= j < k < |from| ==> from[j] < from[k]
    ensures forall j, k :: 0 <= j < k < |best| ==> from[best[j]] != from[best[k]]
  {
    forall j, k | 0 <= j < k < |best| ensures from[best[j]] != from[best[k]] {
      assert Precedes(keys, best[j], best[k]);
      assert best[j] < best[k] || best[k] < best[j];
    }
  }

  /** Vector hits come from records of the workspace. */
  lemma HitOrigin(records: seq<VectorRecord>, vector: Vector, workspaceId: nat, limit: nat, k: nat)
      returns (i: nat)
    requires k < |SearchHits(records, vector, workspaceId, limit)|
    ensures i < |records| && Scoped(records[i], workspaceId)
    ensures var hit := SearchHits(records, vector, workspaceId, limit)[k];
      hit.id == records[i].id && hit.payload == records[i].payload
  {
    hide Score;
    var scoped := InWorkspace(records, workspaceId);
    var n := Order(Scores(vector, scoped))[k];
    i := Where(records, OwnedBy(workspaceId))[n];
    assert OwnedBy(workspaceId)(scoped[n]);
  }

  function KeywordChunks(rows: seq<R.JoinedRow>, workspaceId: nat, terms: set<string>, limit: nat): seq<Candidate> {
    R.ToCandidates(Filter(R.Fetched(rows, workspaceId, terms, limit), R.SharesTerms(workspaceId, terms)), terms)
  }

  /** The row each chunk comes from: different chunks come from different live rows. */
  lemma ChunkOrigins(rows: seq<R.JoinedRow>, workspaceId: nat, terms: set<string>, limit: nat)
      returns (at: seq<nat>)
    ensures |at| == |KeywordChunks(rows, workspaceId, terms, limit)|
    ensures forall k :: 0 <= k < |at| ==>
      && at[k] < |rows| && R.Live(rows[at[k]], workspaceId)
      && KeywordChunks(rows, workspaceId, terms, limit)[k] == R.ToCandidate(rows[at[k]], terms)
    ensures forall j, k :: 0 <= j < k < |at| ==> at[j] < at[k]
  {
    hide R.Overlap, Contains;
    var matching := Filter(rows, R.MatchesTerms(workspaceId, terms));
    var fetched := R.Fetched(rows, workspaceId, terms, limit);
    var within := Where(fetched, R.SharesTerms(workspaceId, terms));
    var among := Where(rows, R.MatchesTerms(workspaceId, terms));
    at := seq(|within|, k requires 0 <= k < |within| => among[within[k]]);
    forall k | 0 <= k < |at| ensures R.Live(rows[at[k]], workspaceId) && fetched[within[k]] == rows[at[k]] {
      assert fetched[within[k]] == matching[within[k]];
      assert R.MatchesTerms(workspaceId, terms)(rows[at[k]]);
    }
  }

  lemma HitsAreBestChunks(rows: seq<R.JoinedRow>, workspaceId: nat, query: string, limit: nat)
    requires TokenSet(query) != {}
    ensures var chunks := KeywordChunks(rows, workspaceId, TokenSet(query), limit);
      R.KeywordHits(rows, workspaceId, query, limit)
      == Permute(chunks, Take(Order(MinorOnly(ScoresOf(chunks))), limit))
  {
    hide TokenSet, R.Fetched, R.SharesTerms, Filter, Order;
  }

  lemma NoTermsNoHits(rows: seq<R.JoinedRow>, workspaceId: nat, query: string, limit: nat)
    requires TokenSet(query) == {}
    ensures R.KeywordHits(rows, workspaceId, query, limit) == []
  {
  }

  /** Keyword hits come from different live rows of the workspace. */
  lemma KeywordOrigins(rows: seq<R.JoinedRow>, workspaceId: nat, query: string, limit: nat)
      returns (at: seq<nat>)
    ensures |at| == |R.KeywordHits(rows, workspaceId, query, limit)|
    ensures forall k :: 0 <= k < |at| ==>
      && at[k] < |rows| && R.Live(rows[at[k]], workspaceId)
      && R.KeywordHits(rows, workspaceId, query, limit)[k] == R.ToCandidate(rows[at[k]], TokenSet(query))
    ensures forall j, k :: 0 <= j < k < |at| ==> at[j] != at[k]
  {
    hide TokenSet, R.ToCandidate, R.Live, KeywordChunks, R.KeywordHits, Order, Precedes, IsTop;
    if TokenSet(query) == {} {
      NoTermsNoHits(rows, workspaceId, query, limit);
      at := [];
    } else {
      HitsAreBestChunks(rows, workspaceId, query, limit);
      var keys := MinorOnly(ScoresOf(KeywordChunks(rows, workspaceId, TokenSet(query), limit)));
      var best := Take(Order(keys), limit);
      TopOfOrder(keys, limit);
      var from := ChunkOrigins(rows, workspaceId, TokenSet(query), limit);
      DistinctThrough(keys, best, from);
      at := seq(|best|, k requires 0 <= k < |best| => from[best[k]]);
    }
  }

  lemma KeywordOrigin(rows: seq<R.JoinedRow>, workspaceId: nat, query: string, limit: nat, k: nat)
      returns (i: nat)
    requires k < |R.KeywordHits(rows, workspaceId, query, limit)|
    ensures i < |rows| && R.Live(rows[i], workspaceId)
    ensures R.KeywordHits(rows, workspaceId, query, limit)[k] == R.ToCandidate(rows[i], TokenSet(query))
  {
    hide R.KeywordHits, TokenSet;
    var at := KeywordOrigins(rows, workspaceId, query, limit);
    i := at[k];
  }

  lemma CandidateOrigin(dense: seq<Candidate>, keyword: seq<Candidate>, k: nat)
      returns (i: nat)
    requires k < |Candidates([dense, keyword])|
    ensures i < |dense| + |keyword|
    ensures Candidates([dense, keyword])[k].(score := 0.0) == (dense + keyword)[i].(score := 0.0)
  {
    hide RrfScore;
    var ranked := [dense, keyword];
    var none: seq<seq<Candidate>> := [];
    assert ranked[..1] == [dense] && [dense][..0] == none;
    assert Flatten([dense]) == Flatten(none) + dense == dense;
    assert Flatten(ranked) == dense + keyword;
    i := FirstAt(Flatten(ranked))[k];
  }

  lemma KeywordIsVisible(
      s: State, rows: seq<R.JoinedRow>, workspaceId: nat, query: string, limit: nat, k: nat)
    requires IsJoin(s, rows) && k < |R.KeywordHits(rows, workspaceId, query, limit)|
    ensures Visible(s, workspaceId, R.KeywordHits(rows, workspaceId, query, limit)[k].documentId)
  {
    hide R.KeywordHits, TokenSet;
    var i := KeywordOrigin(rows, workspaceId, query, limit, k);
    assert Genuine(s, rows[i]);
    var j: nat :| Comes(s, rows[i], j);
    var hit := R.KeywordHits(rows, workspaceId, query, limit)[k];
    assert hit.documentId == rows[i].documentId;
  }

  lemma DenseIsVisible(s: State, vector: Vector, workspaceId: nat, limit: nat, k: nat)
    requires RecordsOk(s) && k < |SearchHits(s.records, vector, workspaceId, limit)|
    ensures Visible(s, workspaceId, SearchHits(s.records, vector, workspaceId, limit)[k].payload.documentId)
  {
    hide SearchHits;
    var i := HitOrigin(s.records, vector, workspaceId, limit, k);
    assert RecordOk(s, s.records[i]);
  }

  lemma CandidateIsVisible(
      s: State, rows: seq<R.JoinedRow>, hits: seq<SearchResult>, workspaceId: nat, query: string, limit: nat, n: nat)
    requires forall i :: 0 <= i < |hits| ==> Visible(s, workspaceId, hits[i].payload.documentId)
    requires IsJoin(s, rows)
    requires n < |Candidates([R.DenseHits(hits), R.KeywordHits(rows, workspaceId, query, limit)])|
    ensures Visible(s, workspaceId,
                    Candidates([R.DenseHits(hits), R.KeywordHits(rows, workspaceId, query, limit)])[n].documentId)
  {
    hide R.KeywordHits, Candidates, IsJoin, Visible;
    var dense, keyword := R.DenseHits(hits), R.KeywordHits(rows, workspaceId, query, limit);
    var candidate := Candidates([dense, keyword])[n];
    var i := CandidateOrigin(dense, keyword, n);
    assert candidate.documentId == candidate.(score := 0.0).documentId;
    if i < |dense| {
      assert (dense + keyword)[i].(score := 0.0).documentId == hits[i].payload.documentId;
    } else {
      assert (dense + keyword)[i].(score := 0.0).documentId == keyword[i - |dense|].documentId;
      KeywordIsVisible(s, rows, workspaceId, query, limit, i - |dense|);
    }
  }

  /** The single ranking that the citations are a prefix of. */
  function RankedCandidates(
      s: State, rows: seq<R.JoinedRow>, vector: Vector, workspaceId: nat, query: string, settings: R.Settings)
    : seq<Candidate>
  {
    var hits := SearchHits(s.records, vector, workspaceId, settings.retrievalTopK);
    var ranked := [R.DenseHits(hits), R.KeywordHits(rows, workspaceId, query, settings.retrievalTopK)];
    SortDesc(Candidates(ranked), R.FinalKeys(query, ranked))
  }

  lemma RankedIsCandidate(chunks: seq<Candidate>, keys: seq<Key>, k: nat) returns (n: nat)
    requires |keys| == |chunks| && k < |SortDesc(chunks, keys)|
    ensures n < |chunks| && SortDesc(chunks, keys)[k] == chunks[n]
  {
    n := Order(keys)[k];
  }

  lemma RankedIsVisible(
      s: State, rows: seq<R.JoinedRow>, vector: Vector, workspaceId: nat, query: string, settings: R.Settings, k: nat)
    requires RecordsOk(s) && IsJoin(s, rows) && k < |RankedCandidates(s, rows, vector, workspaceId, query, settings)|
    ensures Visible(s, workspaceId, RankedCandidates(s, rows, vector, workspaceId, query, settings)[k].documentId)
  {
    hide SearchHits, R.KeywordHits, Candidates, R.FinalKeys, RecordsOk, IsJoin, Visible, SortDesc;
    var hits := SearchHits(s.records, vector, workspaceId, settings.retrievalTopK);
    var ranked := [R.DenseHits(hits), R.KeywordHits(rows, workspaceId, query, settings.retrievalTopK)];
    forall i | 0 <= i < |hits| ensures Visible(s, workspaceId, hits[i].payload.documentId) {
      DenseIsVisible(s, vector, workspaceId, settings.retrievalTopK, i);
    }
    var n := RankedIsCandidate(Candidates(ranked), R.FinalKeys(query, ranked), k);
    CandidateIsVisible(s, rows, hits, workspaceId, query, settings.retrievalTopK, n);
  }

  /** After any run, whatever failed in it, every candidate of a retrieval, and so
      every citation, belongs to a live document of the asking workspace. */
  lemma {:induction false} CitationsNameLiveDocuments(
      p: Providers, ops: seq<Op>, rows: seq<R.JoinedRow>,
      vector: Vector, workspaceId: nat, query: string, settings: R.Settings, k: nat)
    requires IsJoin(Ingestion.Run(p, ops), rows)
    requires k < |RankedCandidates(Ingestion.Run(p, ops), rows, vector, workspaceId, query, settings)|
    ensures var documents := Ingestion.Run(p, ops).tables.documents;
      var d := RankedCandidates(Ingestion.Run(p, ops), rows, vector, workspaceId, query, settings)[k].documentId;
      d in documents && !documents[d].deleted && documents[d].workspaceId == workspaceId
  {
    hide Ingestion.Run, RankedCandidates, IsJoin, RecordsOk;
    RunKeepsInv(p, ops);
    RankedIsVisible(Ingestion.Run(p, ops), rows, vector, workspaceId, query, settings, k);
  }

  /** The candidate repeats the chunk row in every field. */
  predicate QuotesRow(c: Candidate, row: ChunkRow) {
    && c.chunkId == row.id && c.documentId == row.documentId && c.text == row.text
    && c.ordinal == row.ordinal && c.page == row.page && c.section == row.section
  }

  /** The candidate repeats what is stored with the vector. */
  predicate QuotesRecord(c: Candidate, r: VectorRecord) {
    && c.chunkId == r.id && c.documentId == r.payload.documentId && c.text == r.payload.text
    && c.ordinal == r.payload.ordinal && c.page == r.payload.page && c.section == r.payload.section
  }

  predicate Quotes(s: State, c: Candidate) {
    || (exists j :: 0 <= j < |s.tables.chunks| && QuotesRow(c, s.tables.chunks[j]))
    || (exists i :: 0 <= i < |s.records| && QuotesRecord(c, s.records[i]))
  }

  lemma DenseQuotes(s: State, vector: Vector, workspaceId: nat, limit: nat, k: nat)
    requires RecordsOk(s) && k < |SearchHits(s.records, vector, workspaceId, limit)|
    ensures Quotes(s, R.FromHit(SearchHits(s.records, vector, workspaceId, limit)[k]).(score := 0.0))
  {
    hide SearchHits;
    var i := HitOrigin(s.records, vector, workspaceId, limit, k);
    RecordIdIsChunkId(s, i);
    assert QuotesRecord(R.FromHit(SearchHits(s.records, vector, workspaceId, limit)[k]).(score := 0.0), s.records[i]);
  }

  lemma KeywordQuotes(s: State, rows: seq<R.JoinedRow>, workspaceId: nat, query: string, limit: nat, k: nat)
    requires IsJoin(s, rows) && k < |R.KeywordHits(rows, workspaceId, query, limit)|
    ensures Quotes(s, R.KeywordHits(rows, workspaceId, query, limit)[k].(score := 0.0))
  {
    hide R.KeywordHits, TokenSet;
    var i := KeywordOrigin(rows, workspaceId, query, limit, k);
    assert Genuine(s, rows[i]);
    var j: nat :| Comes(s, rows[i], j);
    assert QuotesRow(R.KeywordHits(rows, workspaceId, query, limit)[k].(score := 0.0), s.tables.chunks[j]);
  }

  lemma CandidateQuotes(
      s: State, rows: seq<R.JoinedRow>, vector: Vector, workspaceId: nat, query: string, limit: nat, n: nat)
    requires RecordsOk(s) && IsJoin(s, rows)
    requires var hits := SearchHits(s.records, vector, workspaceId, limit);
      n < |Candidates([R.DenseHits(hits), R.KeywordHits(rows, workspaceId, query, limit)])|
    ensures var hits := SearchHits(s.records, vector, workspaceId, limit);
      Quotes(s, Candidates([R.DenseHits(hits), R.KeywordHits(rows, workspaceId, query, limit)])[n].(score := 0.0))
  {
    hide SearchHits, R.KeywordHits, Candidates, IsJoin, RecordsOk, Quotes;
    var hits := SearchHits(s.records, vector, workspaceId, limit);
    var dense, keyword := R.DenseHits(hits), R.KeywordHits(rows, workspaceId, query, limit);
    var i := CandidateOrigin(dense, keyword, n);
    if i < |dense| {
      DenseQuotes(s, vector, workspaceId, limit, i);
    } else {
      KeywordQuotes(s, rows, workspaceId, query, limit, i - |dense|);
    }
  }

  lemma ScoreIsNotQuoted(s: State, c: Candidate)
    ensures Quotes(s, c) <==> Quotes(s, c.(score := 0.0))
  {
    assert forall row :: QuotesRow(c, row) <==> QuotesRow(c.(score := 0.0), row);
    assert forall r :: QuotesRecord(c, r) <==> QuotesRecord(c.(score := 0.0), r);
  }

  /** After any run, every candidate of a retrieval repeats, field by field, a chunk row
      or what was stored with a vector. */
  lemma CitationsQuoteSources(
      p: Providers, ops: seq<Op>, rows: seq<R.JoinedRow>,
      vector: Vector, workspaceId: nat, query: string, settings: R.Settings, k: nat)
    requires IsJoin(Ingestion.Run(p, ops), rows)
    requires k < |RankedCandidates(Ingestion.Run(p, ops), rows, vector, workspaceId, query, settings)|
    ensures Quotes(Ingestion.Run(p, ops),
                   RankedCandidates(Ingestion.Run(p, ops), rows, vector, workspaceId, query, settings)[k])
  {
    var s := Ingestion.Run(p, ops);
    hide Ingestion.Run, IsJoin, RecordsOk, Inv, Quotes, SearchHits, R.KeywordHits, Candidates, R.FinalKeys, SortDesc;
    RunKeepsInv(p, ops);
    InvRecords(p, s, HistoryOf(p, ops));
    var hits := SearchHits(s.records, vector, workspaceId, settings.retrievalTopK);
    var ranked := [R.DenseHits(hits), R.KeywordHits(rows, workspaceId, query, settings.retrievalTopK)];
    var n := RankedIsCandidate(Candidates(ranked), R.FinalKeys(query, ranked), k);
    CandidateQuotes(s, rows, vector, workspaceId, query, settings.retrievalTopK, n);
    ScoreIsNotQuoted(s, Candidates(ranked)[n]);
  }

  // ----- Both searches describe a chunk alike -----

  /** When both searches return a chunk, they agree on everything but the score, so
      it does not matter that fusion keeps the first of the two. */
  lemma {:induction false} SearchesAgree(
      p: Providers, s: State, h: History, rows: seq<R.JoinedRow>, vector: Vector, workspaceId: nat, query: string,
      limit: nat, i: nat, j: nat)
    requires Inv(p, s, h) && IsJoin(s, rows)
    requires i < |R.DenseHits(SearchHits(s.records, vector, workspaceId, limit))|
    requires j < |R.KeywordHits(rows, workspaceId, query, limit)|
    requires R.DenseHits(SearchHits(s.records, vector, workspaceId, limit))[i].chunkId
          == R.KeywordHits(rows, workspaceId, query, limit)[j].chunkId
    ensures R.DenseHits(SearchHits(s.records, vector, workspaceId, limit))[i].(score := 0.0)
         == R.KeywordHits(rows, workspaceId, query, limit)[j].(score := 0.0)
  {
    assert RecordsOk(s) && Consistent(s.records, s.tables.chunks);
    hide SearchHits, R.KeywordHits, Inv, RecordsOk;
    var a := HitOrigin(s.records, vector, workspaceId, limit, i);
    var b := KeywordOrigin(rows, workspaceId, query, limit, j);
    assert Genuine(s, rows[b]);
    var c: nat :| Comes(s, rows[b], c);
    var dense := R.DenseHits(SearchHits(s.records, vector, workspaceId, limit))[i];
    var keyword := R.KeywordHits(rows, workspaceId, query, limit)[j];
    assert keyword.chunkId == rows[b].chunkId == s.tables.chunks[c].id;
    RecordIdIsChunkId(s, a);
    assert Describes(s.records[a], s.tables.chunks[c]);
  }

  lemma RecordIdIsChunkId(s: State, a: nat)
    requires RecordsOk(s) && a < |s.records|
    ensures s.records[a].payload.chunkId == s.records[a].id
  {
    assert RecordOk(s, s.records[a]);
  }

  // ----- What both searches find comes first -----

  /** Vector hits come from different records. */
  lemma HitOrigins(records: seq<VectorRecord>, vector: Vector, workspaceId: nat, limit: nat)
      returns (at: seq<nat>)
    ensures |at| == |SearchHits(records, vector, workspaceId, limit)|
    ensures forall k :: 0 <= k < |at| ==>
      at[k] < |records| && SearchHits(records, vector, workspaceId, limit)[k].payload == records[at[k]].payload
    ensures forall j, k :: 0 <= j < k < |at| ==> at[j] != at[k]
  {
    hide Score, Order, IsTop, Precedes;
    var keys := Scores(vector, InWorkspace(records, workspaceId));
    var best, from := Take(Order(keys), limit), Where(records, OwnedBy(workspaceId));
    TopOfOrder(keys, limit);
    DistinctThrough(keys, best, from);
    at := seq(|best|, k requires 0 <= k < |best| => from[best[k]]);
  }

  lemma DenseIsDistinct(s: State, vector: Vector, workspaceId: nat, limit: nat)
    requires RecordsOk(s)
    ensures DistinctIds(R.DenseHits(SearchHits(s.records, vector, workspaceId, limit)))
  {
    hide SearchHits, RecordOk;
    var hits := SearchHits(s.records, vector, workspaceId, limit);
    var at := HitOrigins(s.records, vector, workspaceId, limit);
    forall j, k | 0 <= j < k < |hits| ensures hits[j].payload.chunkId != hits[k].payload.chunkId {
      RecordIdIsChunkId(s, at[j]);
      RecordIdIsChunkId(s, at[k]);
      assert at[j] < at[k] || at[k] < at[j];
    }
  }

  lemma KeywordIsDistinct(
      s: State, rows: seq<R.JoinedRow>, workspaceId: nat, query: string, limit: nat)
    requires IsJoin(s, rows)
    ensures DistinctIds(R.KeywordHits(rows, workspaceId, query, limit))
  {
    hide R.KeywordHits, TokenSet, R.Overlap, R.Live;
    var at := KeywordOrigins(rows, workspaceId, query, limit);
    var hits := R.KeywordHits(rows, workspaceId, query, limit);
    forall j, k | 0 <= j < k < |hits| ensures hits[j].chunkId != hits[k].chunkId {
      assert at[j] < at[k] || at[k] < at[j];
    }
  }

  lemma HitsAreFew(
      s: State, rows: seq<R.JoinedRow>, vector: Vector, workspaceId: nat, query: string, limit: nat)
    ensures |SearchHits(s.records, vector, workspaceId, limit)| <= limit
    ensures |R.KeywordHits(rows, workspaceId, query, limit)| <= limit
  {
    hide TokenSet, R.Overlap, Score, R.SortByScore, R.Fetched;
  }

  /** After any run, if the searches return at most 61 hits each, every chunk that
      both find is fused ahead of every chunk that only one finds. */
  lemma {:induction false} ConsensusAfterRuns(
      p: Providers, ops: seq<Op>, rows: seq<R.JoinedRow>,
      vector: Vector, workspaceId: nat, query: string, limit: nat, i: nat, j: nat)
    requires IsJoin(Ingestion.Run(p, ops), rows) && limit <= RRF_K + 1
    requires var dense := R.DenseHits(SearchHits(Ingestion.Run(p, ops).records, vector, workspaceId, limit));
      var keyword := R.KeywordHits(rows, workspaceId, query, limit);
      && i < |Fused([dense, keyword])| && InBoth(dense, keyword, Fused([dense, keyword])[i].chunkId)
      && j < |Fused([dense, keyword])| && InOne(dense, keyword, Fused([dense, keyword])[j].chunkId)
    ensures i < j
  {
    var s := Ingestion.Run(p, ops);
    hide Ingestion.Run, IsJoin, Inv, RecordsOk, SearchHits, R.KeywordHits, Fused, InBoth, InOne, DistinctIds,
         WorstCaseWins;
    RunKeepsInv(p, ops);
    InvRecords(p, s, HistoryOf(p, ops));
    DenseIsDistinct(s, vector, workspaceId, limit);
    KeywordIsDistinct(s, rows, workspaceId, query, limit);
    HitsAreFew(s, rows, vector, workspaceId, query, limit);
    var dense := R.DenseHits(SearchHits(s.records, vector, workspaceId, limit));
    var keyword := R.KeywordHits(rows, workspaceId, query, limit);
    SixtyOneSuffices(|dense|, |keyword|);
    ConsensusFirst(dense, keyword, i, j);
  }

  // ----- Uploaded words can be found -----

  /** A row that shares a token with the query is among the hits when neither limit cuts anything. */
  lemma SharingRowIsHit(rows: seq<R.JoinedRow>, workspaceId: nat, query: string, limit: nat, i: nat)
      returns (k: nat)
    requires i < |rows| && R.Shares(rows[i], workspaceId, TokenSet(query))
    requires |Filter(rows, R.MatchesTerms(workspaceId, TokenSet(query)))| <= limit * 4
    requires |Filter(rows, R.SharesTerms(workspaceId, TokenSet(query)))| <= limit
    ensures k < |R.KeywordHits(rows, workspaceId, query, limit)|
    ensures R.KeywordHits(rows, workspaceId, query, limit)[k] == R.ToCandidate(rows[i], TokenSet(query))
  {
    hide TokenSet, R.KeywordHits, R.Overlap;
    R.PrefilterLosesNothing(rows, workspaceId, query, limit);
    var terms := TokenSet(query);
    var n := WhereComplete(rows, R.SharesTerms(workspaceId, terms), i);
    var chunks := R.ToCandidates(Filter(rows, R.SharesTerms(workspaceId, terms)), terms);
    var keys := MinorOnly(ScoresOf(chunks));
    OrderSorts(keys);
    assert n in Order(keys);
    k :| 0 <= k < |Order(keys)| && Order(keys)[k] == n;
    assert R.Sharing(rows, workspaceId, query)[k] == chunks[n];
  }

  lemma TokenIsShared(row: R.JoinedRow, workspaceId: nat, query: string, t: string)
    requires R.Live(row, workspaceId) && t in TokenSet(query) && t in Tokens(row.text)
    ensures R.Shares(row, workspaceId, TokenSet(query))
  {
    hide Tokens;
    assert t in TokenSet(query) * TokenSet(row.text);
  }

  /** The rows of the document after a successful ingestion. */
  lemma FreshRows(
      p: Providers, s: State, documentId: nat, chunks: seq<TextChunk>, batchSize: int, n: nat)
    requires documentId in s.tables.documents && n < |chunks|
    ensures var rows := RowsOf(Succeeded(p, s, documentId, chunks, batchSize).tables.chunks, documentId);
      n < |rows| && rows[n] == NewRow(chunks[n], documentId, s.nextId + n)
  {
    hide RowsOf, Replaced;
    ReplacedByDocument(s.tables.chunks, documentId, NewRows(chunks, documentId, s.nextId));
  }

  /** Neither the row limit of the query nor the number of hits cuts anything off. */
  predicate FitsLimits(rows: seq<R.JoinedRow>, workspaceId: nat, query: string, limit: nat) {
    && |Filter(rows, R.MatchesTerms(workspaceId, TokenSet(query)))| <= limit * 4
    && |Filter(rows, R.SharesTerms(workspaceId, TokenSet(query)))| <= limit
  }

  /** Hit `k` is a chunk of the document that contains the token. */
  predicate FindsToken(
    rows: seq<R.JoinedRow>, workspaceId: nat, query: string, limit: nat, k: nat, documentId: nat, t: string)
  {
    var hits := R.KeywordHits(rows, workspaceId, query, limit);
    k < |hits| && hits[k].documentId == documentId && t in Tokens(hits[k].text)
  }

  /** A row of a live document that contains a token of the query is found by it. */
  lemma RowIsHit(
      s: State, documentId: nat, n: nat, rows: seq<R.JoinedRow>, query: string, limit: nat, t: string)
      returns (k: nat)
    requires documentId in s.tables.documents && !s.tables.documents[documentId].deleted
    requires n < |RowsOf(s.tables.chunks, documentId)| && t in Tokens(RowsOf(s.tables.chunks, documentId)[n].text)
    requires t in TokenSet(query) && IsJoin(s, rows)
    requires FitsLimits(rows, s.tables.documents[documentId].workspaceId, query, limit)
    ensures FindsToken(rows, s.tables.documents[documentId].workspaceId, query, limit, k, documentId, t)
  {
    hide Tokens, TokenSet, R.KeywordHits, R.MatchesTerms, R.SharesTerms, Filter;
    var workspaceId := s.tables.documents[documentId].workspaceId;
    var j := Where(s.tables.chunks, InDocument(documentId))[n];
    assert InDocument(documentId)(s.tables.chunks[j]);
    assert Listed(s, rows, j);
    var i :| 0 <= i < |rows| && Comes(s, rows[i], j);
    TokenIsShared(rows[i], workspaceId, query, t);
    k := SharingRowIsHit(rows, workspaceId, query, limit, i);
  }

  /** Page `q` of the extracted text contains the token, and it is no longer than the overlap plus one. */
  predicate ShortTokenOnPage(p: Providers, filename: string, data: Bytes, settings: Settings, q: nat, t: string) {
    var extracted := p.extract(filename, data);
    && extracted.Ok? && q < |extracted.value| && t in Tokens(extracted.value[q].text)
    && settings.chunkSize > 0 && |t| <= Clamped(settings.chunkSize, settings.chunkOverlap) + 1
  }

  lemma TokenReachesExtracted(
      p: Providers, filename: string, data: Bytes, settings: Settings, fault: Fault, q: nat, t: string) returns (n: nat)
    requires Extracted(p, filename, data, settings, fault).Ok?
    requires ShortTokenOnPage(p, filename, data, settings, q, t)
    ensures var chunks := Extracted(p, filename, data, settings, fault).value;
      n < |chunks| && t in Tokens(chunks[n].text)
  {
    hide Tokens, ChunkResult;
    n := TokenReachesChunk(p.extract(filename, data).value, settings.chunkSize, settings.chunkOverlap,
                           p.latestSection, q, t);
  }

  /** From upload to search: once an ingestion has succeeded, a token of an extracted
      page that is no longer than the overlap plus one is found by any query that
      contains it, in a chunk of that document, whatever happens to other documents
      in the meantime, as long as neither row limit cuts anything off. */
  lemma {:induction false} UploadedTokenIsFound(
      p: Providers, s: State, h: History, documentId: nat, data: Bytes, settings: Settings, fault: Fault,
      later: seq<Op>, rows: seq<R.JoinedRow>, query: string, limit: nat, q: nat, t: string) returns (k: nat)
    requires Inv(p, s, h) && documentId in s.tables.documents && !s.tables.documents[documentId].deleted
    requires Try(p, s, documentId, data, settings, fault).result.Ok?
    requires ShortTokenOnPage(p, s.tables.documents[documentId].filename, data, settings, q, t) && t in TokenSet(query)
    requires forall i :: 0 <= i < |later| ==> Spares(later[i], documentId)
    requires IsJoin(RunFrom(p, Ingest(p, s, documentId, data, settings, fault), later), rows)
    requires FitsLimits(rows, s.tables.documents[documentId].workspaceId, query, limit)
    ensures FindsToken(rows, s.tables.documents[documentId].workspaceId, query, limit, k, documentId, t)
  {
    InvRecords(p, s, h);
    hide Inv, RecordsOk, Try, Ingest, TokenSet, Tokens, Extracted, Succeeded, IsJoin, FitsLimits, FindsToken,
         ShortTokenOnPage, RunFrom, RowsOf;
    var filename := s.tables.documents[documentId].filename;
    var after := Ingest(p, s, documentId, data, settings, fault);
    SuccessfulIngest(p, s, documentId, data, settings, fault);
    var chunks := Extracted(p, filename, data, settings, fault).value;
    var n := TokenReachesExtracted(p, filename, data, settings, fault, q, t);
    FreshRows(p, s, documentId, chunks, settings.batchSize, n);
    IngestKeepsDocument(p, s, documentId, data, settings, fault);
    IngestKeepsInv(p, s, h, documentId, data, settings, fault);
    RunSpares(p, after, Noted(p, s, h, documentId, data, settings, fault), later, documentId);
    k := RowIsHit(RunFrom(p, after, later), documentId, n, rows, query, limit, t);
  }
}
