/** Hybrid retrieval (app/services/retrieval.py): keyword scan, re-ranking and
    packing into a token budget, and the single ranking their composition is. */
module Retrieval {
  import opened Context
  import opened Fusion
  import opened Lists
  import opened Ranking
  import opened Text
  import opened VectorStore
  import opened Wrappers

  /** A chunk row joined with its document, as the keyword query sees it. */
  datatype JoinedRow = JoinedRow(
    chunkId: nat, documentId: nat, ordinal: nat, text: string, page: Option<int>, section: Option<string>,
    workspaceId: nat, deleted: bool)

  // ----- Keyword scan -----

  function Overlap(terms: set<string>, text: string): nat { |terms * TokenSet(text)| }

  predicate Live(row: JoinedRow, workspaceId: nat) { row.workspaceId == workspaceId && !row.deleted }

  /** The query's WHERE clause. Terms are alphanumeric, so `ilike '%term%'` holds no
      wildcard and means that the lowered text contains the term. */
  predicate Matches(row: JoinedRow, workspaceId: nat, terms: set<string>) {
    Live(row, workspaceId) && exists t | t in terms :: Contains(Lower(row.text), t)
  }

  /** A row matches exactly when its document is live, belongs to the workspace and its
      lowered text contains some term. */
  lemma {:induction false} MatchesExact(row: JoinedRow, workspaceId: nat, terms: set<string>)
    ensures Matches(row, workspaceId, terms) <==>
      row.workspaceId == workspaceId && !row.deleted && exists t :: t in terms && Contains(Lower(row.text), t)
  {
  }

  predicate Shares(row: JoinedRow, workspaceId: nat, terms: set<string>) {
    Live(row, workspaceId) && Overlap(terms, row.text) > 0
  }

  function MatchesTerms(workspaceId: nat, terms: set<string>): JoinedRow -> bool {
    (row: JoinedRow) => Matches(row, workspaceId, terms)
  }

  function SharesTerms(workspaceId: nat, terms: set<string>): JoinedRow -> bool {
    (row: JoinedRow) => Shares(row, workspaceId, terms)
  }

  function ToCandidate(row: JoinedRow, terms: set<string>): Candidate {
    Candidate(row.chunkId, row.documentId, row.text, row.ordinal, row.page, row.section,
              Overlap(terms, row.text) as real)
  }

  function ToCandidates(rows: seq<JoinedRow>, terms: set<string>): (r: seq<Candidate>)
    ensures |r| == |rows| && forall k :: 0 <= k < |r| ==> r[k] == ToCandidate(rows[k], terms)
  {
    seq(|rows|, k requires 0 <= k < |rows| => ToCandidate(rows[k], terms))
  }

  function SortByScore(chunks: seq<Candidate>): seq<Candidate> {
    SortDesc(chunks, MinorOnly(ScoresOf(chunks)))
  }

  /** What the scan fetches: the first `4 * limit` matching rows in whatever order
      the database yields them. */
  function Fetched(rows: seq<JoinedRow>, workspaceId: nat, terms: set<string>, limit: nat): seq<JoinedRow> {
    Take(Filter(rows, MatchesTerms(workspaceId, terms)), limit * 4)
  }

  function KeywordHits(rows: seq<JoinedRow>, workspaceId: nat, query: string, limit: nat): seq<Candidate> {
    var terms := TokenSet(query);
    if terms == {} then []
    else
      var sharing := Filter(Fetched(rows, workspaceId, terms, limit), SharesTerms(workspaceId, terms));
      Take(SortByScore(ToCandidates(sharing, terms)), limit)
  }

  method Keyword(rows: seq<JoinedRow>, workspaceId: nat, query: string, limit: nat) returns (r: seq<Candidate>)
    ensures r == KeywordHits(rows, workspaceId, query, limit)
  {
    hide TokenSet, Contains;
    var terms := TokenSet(query);
    if terms == {} {
      return [];
    }
    var fetched := Fetched(rows, workspaceId, terms, limit);
    FetchedAreLive(rows, workspaceId, terms, limit);
    var scored: seq<Candidate> := [];
    for k := 0 to |fetched|
      invariant scored == ToCandidates(Filter(fetched[..k], SharesTerms(workspaceId, terms)), terms)
    {
      assert fetched[..k + 1][..k] == fetched[..k];
      var overlap := Overlap(terms, fetched[k].text);
      if overlap > 0 {
        scored := scored + [ToCandidate(fetched[k], terms)];
      }
    }
    assert fetched[..|fetched|] == fetched;
    r := Take(SortByScore(scored), limit);
  }

  lemma FetchedAreLive(rows: seq<JoinedRow>, workspaceId: nat, terms: set<string>, limit: nat)
    ensures forall k :: 0 <= k < |Fetched(rows, workspaceId, terms, limit)| ==>
              Matches(Fetched(rows, workspaceId, terms, limit)[k], workspaceId, terms)
  {
    var found := Filter(rows, MatchesTerms(workspaceId, terms));
    assert forall k :: 0 <= k < |found| ==> MatchesTerms(workspaceId, terms)(found[k]);
  }

  /** Keyword hits are scored by their number of query tokens, at least one, most first. */
  lemma {:induction false} KeywordOrder(rows: seq<JoinedRow>, workspaceId: nat, query: string, limit: nat)
    ensures var hits, terms := KeywordHits(rows, workspaceId, query, limit), TokenSet(query);
      forall i, j :: 0 <= i <= j < |hits| ==>
        && hits[i].score == |terms * TokenSet(hits[i].text)| as real
        && hits[i].score >= hits[j].score >= 1.0
  {
    hide TokenSet, Matches;
    var terms := TokenSet(query);
    var hits := KeywordHits(rows, workspaceId, query, limit);
    var sharing := Filter(Fetched(rows, workspaceId, terms, limit), SharesTerms(workspaceId, terms));
    var chunks := ToCandidates(sharing, terms);
    var keys := MinorOnly(ScoresOf(chunks));
    var order := Order(keys);
    OrderSorts(keys);
    forall i, j | 0 <= i <= j < |hits|
      ensures hits[i].score == |terms * TokenSet(hits[i].text)| as real
      ensures hits[i].score >= hits[j].score >= 1.0
    {
      if i < j { assert Precedes(keys, order[i], order[j]); }
      assert SharesTerms(workspaceId, terms)(sharing[order[j]]);
    }
  }

  /** Every live chunk of the workspace that shares a token with the query, best
      overlap first, ties in row order. */
  function Sharing(rows: seq<JoinedRow>, workspaceId: nat, query: string): seq<Candidate> {
    var terms := TokenSet(query);
    SortByScore(ToCandidates(Filter(rows, SharesTerms(workspaceId, terms)), terms))
  }

  /** Sharing a token implies matching the substring filter. */
  lemma SharingMatches(row: JoinedRow, workspaceId: nat, query: string)
    requires Shares(row, workspaceId, TokenSet(query))
    ensures Matches(row, workspaceId, TokenSet(query))
  {
    var common := TokenSet(query) * TokenSet(row.text);
    assert common != {};
    var t :| t in common;
    TokenOccurs(row.text, t);
  }

  /** If the row limit cuts nothing off, the scan returns exactly the `limit` best
      sharing chunks: the substring filter loses none. */
  lemma {:induction false} PrefilterLosesNothing(rows: seq<JoinedRow>, workspaceId: nat, query: string, limit: nat)
    requires |Filter(rows, MatchesTerms(workspaceId, TokenSet(query)))| <= limit * 4
    ensures KeywordHits(rows, workspaceId, query, limit) == Take(Sharing(rows, workspaceId, query), limit)
  {
    hide TokenSet, Shares, Matches, SortByScore;
    var terms := TokenSet(query);
    var weak, strong := MatchesTerms(workspaceId, terms), SharesTerms(workspaceId, terms);
    forall k | 0 <= k < |rows| && strong(rows[k]) ensures weak(rows[k]) {
      SharingMatches(rows[k], workspaceId, query);
    }
    FilterTwice(rows, weak, strong);
    assert Fetched(rows, workspaceId, terms, limit) == Filter(rows, weak);
    if terms == {} {
      NoTermsNoRows(rows, workspaceId, terms);
      assert ToCandidates([], terms) == [];
      SortNothing();
    }
  }

  lemma NoTermsNoRows(rows: seq<JoinedRow>, workspaceId: nat, terms: set<string>)
    requires terms == {}
    ensures Filter(rows, SharesTerms(workspaceId, terms)) == []
  {
    var kept := Filter(rows, SharesTerms(workspaceId, terms));
    if kept != [] {
      assert SharesTerms(workspaceId, terms)(kept[0]);
      NoOverlap(kept[0].text);
    }
  }

  lemma NoOverlap(text: string)
    ensures Overlap({}, text) == 0
  {
    hide TokenSet;
    assert {} * TokenSet(text) == {};
  }

  lemma SortNothing()
    ensures SortByScore([]) == []
  {
  }

  // ----- The row limit is exact -----

  /** Whatever rows match, as long as they are `n`, the scan returns the best ones. */
  ghost predicate LimitIsHarmless(limit: nat, n: nat) {
    forall rows, workspaceId: nat, query ::
      |Filter(rows, MatchesTerms(workspaceId, TokenSet(query)))| == n
      ==> KeywordHits(rows, workspaceId, query, limit) == Take(Sharing(rows, workspaceId, query), limit)
  }

  function Plain(id: nat, text: string): JoinedRow { JoinedRow(id, 0, id, text, None, None, 0, false) }

  /** `4 * limit` rows that share one term, then a row that shares both. */
  function LateBest(limit: nat, n: nat): (rows: seq<JoinedRow>)
    requires n > limit * 4
    ensures |rows| == n
    ensures forall k :: 0 <= k < n ==> rows[k] == Plain(k, if k < limit * 4 then "a" else "a b")
  {
    var texts := seq(n, k requires 0 <= k < n => if k < limit * 4 then "a" else "a b");
    seq(n, k requires 0 <= k < n => Plain(k, texts[k]))
  }

  lemma SmallTokens()
    ensures TokenSet("a b") == {"a", "b"} && TokenSet("a") == {"a"}
    ensures Overlap({"a", "b"}, "a") == 1 && Overlap({"a", "b"}, "a b") == 2
  {
    assert Lower("a") == "a" && Lower("a b") == "a b";
    assert LeadingRun("b", IsAlnum) == 1 && LeadingRun("a", IsAlnum) == 1;
    assert "a b"[1..] == " b" && " b"[1..] == "b";
    assert LeadingRun("a b", IsAlnum) == 1;
    assert "a b"[..1] == "a" && "b"[..1] == "b" && "a"[..1] == "a";
    assert Runs("b", IsAlnum) == ["b"] + Runs("", IsAlnum) == ["b"];
    assert Runs(" b", IsAlnum) == ["b"];
    assert Tokens("a b") == ["a", "b"] && Tokens("a") == ["a"];
    assert {"a", "b"} * {"a"} == {"a"};
    assert {"a", "b"} * {"a", "b"} == {"a", "b"};
    assert "a" != "b" by { assert "a"[0] != "b"[0]; }
    assert |{"a", "b"}| == 2;
  }

  lemma AllShare(limit: nat, n: nat)
    requires n > limit * 4
    ensures var rows, terms := LateBest(limit, n), TokenSet("a b");
      && Filter(rows, MatchesTerms(0, terms)) == rows && Filter(rows, SharesTerms(0, terms)) == rows
      && Filter(rows[..limit * 4], SharesTerms(0, terms)) == rows[..limit * 4]
  {
    var rows, terms := LateBest(limit, n), TokenSet("a b");
    SmallTokens();
    hide TokenSet, Contains;
    forall k | 0 <= k < n ensures Shares(rows[k], 0, terms) && Matches(rows[k], 0, terms) {
      SharingMatches(rows[k], 0, "a b");
    }
    FilterAll(rows, MatchesTerms(0, terms));
    FilterAll(rows, SharesTerms(0, terms));
    FilterAll(rows[..limit * 4], SharesTerms(0, terms));
  }

  lemma LimitHurts(limit: nat, n: nat)
    requires limit > 0 && n > limit * 4
    ensures !LimitIsHarmless(limit, n)
  {
    var rows, terms := LateBest(limit, n), TokenSet("a b");
    SmallTokens();
    AllShare(limit, n);
    hide TokenSet, Contains, Filter, SortByScore;
    BestComesFirst(ToCandidates(rows, terms), limit * 4);
    FirstIsOneOf(ToCandidates(rows[..limit * 4], terms));
    assert KeywordHits(rows, 0, "a b", limit)[0].score == 1.0;
    assert Take(Sharing(rows, 0, "a b"), limit)[0].score >= 2.0;
  }

  lemma BestComesFirst(chunks: seq<Candidate>, i: nat)
    requires i < |chunks| && chunks[i].score == 2.0
    ensures |SortByScore(chunks)| == |chunks| && SortByScore(chunks)[0].score >= 2.0
  {
    var keys := MinorOnly(ScoresOf(chunks));
    OrderSorts(keys);
    assert i in Order(keys);
    var p :| 0 <= p < |Order(keys)| && Order(keys)[p] == i;
    if p > 0 { assert Precedes(keys, Order(keys)[0], Order(keys)[p]); }
  }

  lemma FirstIsOneOf(chunks: seq<Candidate>)
    requires |chunks| > 0 && forall k :: 0 <= k < |chunks| ==> chunks[k].score == 1.0
    ensures |SortByScore(chunks)| == |chunks| && SortByScore(chunks)[0].score == 1.0
  {
  }

  lemma LimitIsExact(limit: nat, n: nat)
    requires limit > 0
    ensures LimitIsHarmless(limit, n) <==> n <= limit * 4
  {
    if n > limit * 4 {
      LimitHurts(limit, n);
    } else {
      forall rows, workspaceId: nat, query |
        |Filter(rows, MatchesTerms(workspaceId, TokenSet(query)))| == n
        ensures KeywordHits(rows, workspaceId, query, limit) == Take(Sharing(rows, workspaceId, query), limit)
      {
        PrefilterLosesNothing(rows, workspaceId, query, limit);
      }
    }
  }

  // ----- Dense hits and re-ranking -----

  function DenseHits(hits: seq<SearchResult>): (r: seq<Candidate>)
    ensures |r| == |hits|
    ensures forall k :: 0 <= k < |r| ==> r[k] == FromHit(hits[k])
  {
    seq(|hits|, k requires 0 <= k < |hits| => FromHit(hits[k]))
  }

  function FromHit(hit: SearchResult): Candidate {
    Candidate(hit.payload.chunkId, hit.payload.documentId, hit.payload.text,
              hit.payload.ordinal, hit.payload.page, hit.payload.section, hit.score)
  }

  function Overlaps(terms: set<string>, chunks: seq<Candidate>): (r: seq<int>)
    ensures |r| == |chunks| && forall k :: 0 <= k < |r| ==> r[k] == Overlap(terms, chunks[k].text)
  {
    seq(|chunks|, k requires 0 <= k < |chunks| => Overlap(terms, chunks[k].text))
  }

  function Reranked(query: string, chunks: seq<Candidate>, topK: nat): seq<Candidate> {
    Take(SortDesc(chunks, Combined(Overlaps(TokenSet(query), chunks), ScoresOf(chunks))), topK)
  }

  /** The keys of the single ranking: overlap first, fused score second; `Order`
      breaks remaining ties by first appearance. */
  function FinalKeys(query: string, ranked: seq<seq<Candidate>>): (keys: seq<Key>)
    ensures |keys| == |Candidates(ranked)|
  {
    Combined(Overlaps(TokenSet(query), Candidates(ranked)), ScoresOf(Candidates(ranked)))
  }

  /** Sorting by fused score and then re-sorting by overlap is one ranking of the
      distinct candidates. */
  lemma {:induction false} RerankOfFuseIsOneRanking(query: string, ranked: seq<seq<Candidate>>, topK: nat)
    ensures Reranked(query, Fused(ranked), topK) == Take(SortDesc(Candidates(ranked), FinalKeys(query, ranked)), topK)
  {
    hide TokenSet, Candidates, Overlap;
    var cs, terms := Candidates(ranked), TokenSet(query);
    var major, minor := Overlaps(terms, cs), ScoresOf(cs);
    var first := Order(MinorOnly(minor));
    var fused := Fused(ranked);
    assert Overlaps(terms, fused) == Permute(major, first);
    assert ScoresOf(fused) == Permute(minor, first);
    var second := Order(Combined(Permute(major, first), Permute(minor, first)));
    TwoSortsAreOne(major, minor);
    assert Permute(fused, second) == Permute(cs, Permute(first, second));
  }

  // ----- Budget packing -----

  function Cost(chunks: seq<Candidate>): nat {
    if chunks == [] then 0 else Cost(chunks[..|chunks| - 1]) + |Tokens(chunks[|chunks| - 1].text)|
  }

  function TextsOf(chunks: seq<Candidate>): (r: seq<string>)
    ensures |r| == |chunks| && forall k :: 0 <= k < |r| ==> r[k] == chunks[k].text
  {
    seq(|chunks|, k requires 0 <= k < |chunks| => chunks[k].text)
  }

  datatype RetrievalResult = RetrievalResult(context: string, citations: seq<Candidate>)

  /** Keeps the longest prefix within the budget, but never fewer than one chunk;
      line `i` of the context is labelled with the number of citation `i` and holds
      its whole text. */
  method Assemble(chunks: seq<Candidate>, budget: int) returns (r: RetrievalResult)
    ensures r.citations <= chunks
    ensures r.context == Join(Lines(TextsOf(r.citations))) && LaidOut(r.context, TextsOf(r.citations))
    ensures chunks != [] ==> r.citations != []
    ensures Cost(r.citations) <= budget || |r.citations| <= 1
    ensures forall m :: |r.citations| < m <= |chunks| ==> Cost(chunks[..m]) > budget
  {
    hide Tokens, Join, Line, Cost, LaidOut;
    CostOfNone();
    var lines: seq<string> := [];
    var citations: seq<Candidate> := [];
    var used := 0;
    var index := 0;
    while index < |chunks|
      invariant index == |citations| <= |chunks| && citations == chunks[..index]
      invariant lines == Lines(TextsOf(citations)) && used == Cost(citations)
      invariant used <= budget || |citations| <= 1
    {
      CostOfMore(chunks, index);
      var cost := |Tokens(chunks[index].text)|;
      if lines != [] && used + cost > budget {
        LongerCostsMore(chunks, index, budget);
        break;
      }
      used := used + cost;
      lines := lines + [Line(index + 1, chunks[index].text)];
      citations := citations + [chunks[index]];
      index := index + 1;
    }
    r := RetrievalResult(Join(lines), citations);
    JoinedIsLaidOut(TextsOf(citations));
  }

  lemma CostOfNone()
    ensures Cost([]) == 0
  {
  }

  /** If one chunk more is too much, so is any longer prefix. */
  lemma LongerCostsMore(chunks: seq<Candidate>, n: nat, budget: int)
    requires n < |chunks| && Cost(chunks[..n]) + |Tokens(chunks[n].text)| > budget
    ensures forall m :: n < m <= |chunks| ==> Cost(chunks[..m]) > budget
  {
    hide Tokens;
    assert chunks[..n + 1][..n] == chunks[..n];
    forall m | n < m <= |chunks| ensures Cost(chunks[..m]) > budget {
      PrefixCostsLess(chunks, n + 1, m);
    }
  }

  lemma CostOfMore(chunks: seq<Candidate>, n: nat)
    requires n < |chunks|
    ensures Cost(chunks[..n + 1]) == Cost(chunks[..n]) + |Tokens(chunks[n].text)|
  {
    hide Tokens;
    assert chunks[..n + 1][..n] == chunks[..n];
  }

  lemma {:induction false} PrefixCostsLess(chunks: seq<Candidate>, n: nat, m: nat)
    requires n <= m <= |chunks|
    ensures Cost(chunks[..n]) <= Cost(chunks[..m])
    decreases m
  {
    hide Tokens;
    if n < m {
      PrefixCostsLess(chunks, n, m - 1);
      assert chunks[..m][..m - 1] == chunks[..m - 1];
    }
  }

  // ----- The whole pipeline -----

  datatype Settings = Settings(retrievalTopK: nat, rerankTopK: nat, contextTokenBudget: int)

  /** Candidate `i` beats candidate `j`: more query tokens, or as many and a higher
      fused score, or both equal and an earlier first appearance. */
  predicate Beats(query: string, cs: seq<Candidate>, i: nat, j: nat)
    requires i < |cs| && j < |cs|
  {
    var oi, oj := Overlap(TokenSet(query), cs[i].text), Overlap(TokenSet(query), cs[j].text);
    oi > oj || (oi == oj && cs[i].score > cs[j].score) || (oi == oj && cs[i].score == cs[j].score && i < j)
  }

  /** The citations are the candidates at the positions `at`, each beats those after
      it, and no candidate left out beats one that is cited. */
  predicate BestCited(query: string, cs: seq<Candidate>, citations: seq<Candidate>, at: seq<nat>) {
    && |at| == |citations|
    && (forall k :: 0 <= k < |at| ==> at[k] < |cs| && citations[k] == cs[at[k]])
    && (forall p, q :: 0 <= p < q < |at| ==> Beats(query, cs, at[p], at[q]))
    && (forall p, i: nat :: 0 <= p < |at| && i < |cs| && i !in at ==> Beats(query, cs, at[p], i))
  }

  /** Any prefix of the single ranking cites the best. */
  lemma {:induction false} NothingBetterIsLeftOut(query: string, ranked: seq<seq<Candidate>>, citations: seq<Candidate>)
      returns (at: seq<nat>)
    requires citations <= SortDesc(Candidates(ranked), FinalKeys(query, ranked))
    ensures at == Take(Order(FinalKeys(query, ranked)), |citations|)
    ensures BestCited(query, Candidates(ranked), citations, at)
  {
    hide TokenSet, Candidates, Overlap, Order;
    var keys := FinalKeys(query, ranked);
    at := Take(Order(keys), |citations|);
    TopOfOrder(keys, |citations|);
    forall p, i: nat | 0 <= p < |at| && i < |keys| && Precedes(keys, at[p], i)
      ensures Beats(query, Candidates(ranked), at[p], i)
    {
    }
  }

  /** The citations are a prefix of one ranking of the distinct candidates: the
      longest one within the budget, but at least one. */
  method Retrieve(
      hits: seq<SearchResult>, rows: seq<JoinedRow>, workspaceId: nat, query: string, settings: Settings)
    returns (r: RetrievalResult, ghost at: seq<nat>)
    ensures var ranked := [DenseHits(hits), KeywordHits(rows, workspaceId, query, settings.retrievalTopK)];
      BestCited(query, Candidates(ranked), r.citations, at)
    ensures var ranked := [DenseHits(hits), KeywordHits(rows, workspaceId, query, settings.retrievalTopK)];
      var top := Take(SortDesc(Candidates(ranked), FinalKeys(query, ranked)), settings.rerankTopK);
      && r.citations <= top
      && (top != [] ==> r.citations != [])
      && (|r.citations| > 1 ==> Cost(r.citations) <= settings.contextTokenBudget)
      && (forall m :: |r.citations| < m <= |top| ==> Cost(top[..m]) > settings.contextTokenBudget)
    ensures LaidOut(r.context, TextsOf(r.citations))
  {
    hide KeywordHits, TokenSet, Candidates, Fused, FinalKeys, Order, BestCited, Cost, LaidOut;
    var dense := DenseHits(hits);
    var keyword := Keyword(rows, workspaceId, query, settings.retrievalTopK);
    var fused := Fuse([dense, keyword]);
    var top := Reranked(query, fused, settings.rerankTopK);
    RerankOfFuseIsOneRanking(query, [dense, keyword], settings.rerankTopK);
    r := Assemble(top, settings.contextTokenBudget);
    at := NothingBetterIsLeftOut(query, [dense, keyword], r.citations);
  }
}
