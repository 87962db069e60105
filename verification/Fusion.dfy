/** Reciprocal-rank fusion (`_fuse` in app/services/retrieval.py). */
module Fusion {
  import opened Ranking
  import opened Reals
  import opened Wrappers

  const RRF_K: nat := 60

  datatype Candidate = Candidate(
    chunkId: nat, documentId: nat, text: string,
    ordinal: nat, page: Option<int>, section: Option<string>, score: real)

  // ----- Specification -----

  function Inverse(rank: nat): real { 1.0 / (RRF_K + rank + 1) as real }

  /** What one ranked list contributes to the score of `id`. */
  function RankScore(chunks: seq<Candidate>, id: nat): real {
    if chunks == [] then 0.0
    else
      var last := |chunks| - 1;
      RankScore(chunks[..last], id) + (if chunks[last].chunkId == id then Inverse(last) else 0.0)
  }

  function RrfScore(ranked: seq<seq<Candidate>>, id: nat): real {
    if ranked == [] then 0.0
    else RrfScore(ranked[..|ranked| - 1], id) + RankScore(ranked[|ranked| - 1], id)
  }

  function Flatten(ranked: seq<seq<Candidate>>): seq<Candidate> {
    if ranked == [] then [] else Flatten(ranked[..|ranked| - 1]) + ranked[|ranked| - 1]
  }

  predicate Seen(chunks: seq<Candidate>, id: nat) {
    exists k :: 0 <= k < |chunks| && chunks[k].chunkId == id
  }

  /** The first candidate of every id, in order of first appearance. */
  function FirstSeen(chunks: seq<Candidate>): seq<Candidate> {
    if chunks == [] then []
    else
      var before := FirstSeen(chunks[..|chunks| - 1]);
      if Seen(before, chunks[|chunks| - 1].chunkId) then before else before + [chunks[|chunks| - 1]]
  }

  function Scored(chunks: seq<Candidate>, ranked: seq<seq<Candidate>>): (r: seq<Candidate>)
    ensures |r| == |chunks|
    ensures forall k :: 0 <= k < |r| ==> r[k] == chunks[k].(score := RrfScore(ranked, chunks[k].chunkId))
  {
    seq(|chunks|, k requires 0 <= k < |chunks| => chunks[k].(score := RrfScore(ranked, chunks[k].chunkId)))
  }

  function ScoresOf(chunks: seq<Candidate>): (r: seq<real>)
    ensures |r| == |chunks| && forall k :: 0 <= k < |r| ==> r[k] == chunks[k].score
  {
    seq(|chunks|, k requires 0 <= k < |chunks| => chunks[k].score)
  }

  /** The distinct candidates in order of first appearance, carrying their fused scores. */
  function Candidates(ranked: seq<seq<Candidate>>): seq<Candidate> {
    Scored(FirstSeen(Flatten(ranked)), ranked)
  }

  function Fused(ranked: seq<seq<Candidate>>): (r: seq<Candidate>)
    ensures |r| == |Candidates(ranked)|
  {
    SortDesc(Candidates(ranked), MinorOnly(ScoresOf(Candidates(ranked))))
  }

  // ----- The loops -----

  /** `scores.get(id, 0.0)` */
  function KnownScore(scores: map<nat, real>, id: nat): real { if id in scores then scores[id] else 0.0 }

  /** `scores` and `fused` are the two dicts of the source; the second is a
      sequence of its values in insertion order. */
  ghost predicate Accumulated(scores: map<nat, real>, fused: seq<Candidate>,
                              ranked: seq<seq<Candidate>>, part: seq<Candidate>)
  {
    && fused == FirstSeen(Flatten(ranked) + part)
    && (forall id: nat :: id in scores <==> Seen(fused, id))
    && (forall id: nat :: KnownScore(scores, id) == RrfScore(ranked, id) + RankScore(part, id))
  }

  method Fuse(ranked: seq<seq<Candidate>>) returns (ordered: seq<Candidate>)
    ensures ordered == Fused(ranked)
  {
    hide Accumulated, Flatten, FirstSeen, RrfScore, RankScore, Seen;
    var fused: seq<Candidate> := [];
    var scores: map<nat, real> := map[];
    AccumulateNothing();
    for l := 0 to |ranked|
      invariant Accumulated(scores, fused, ranked[..l], [])
    {
      for rank := 0 to |ranked[l]|
        invariant Accumulated(scores, fused, ranked[..l], ranked[l][..rank])
      {
        var chunk := ranked[l][rank];
        AccumulateOne(scores, fused, ranked[..l], ranked[l][..rank], chunk);
        assert ranked[l][..rank] + [chunk] == ranked[l][..rank + 1];
        var known := KnownScore(scores, chunk.chunkId);
        scores := scores[chunk.chunkId := known + 1.0 / (RRF_K + rank + 1) as real];
        if !Seen(fused, chunk.chunkId) {
          fused := fused + [chunk];
        }
      }
      assert ranked[l][..|ranked[l]|] == ranked[l];
      AccumulateList(scores, fused, ranked[..l], ranked[l]);
      assert ranked[..l] + [ranked[l]] == ranked[..l + 1];
    }
    assert ranked[..|ranked|] == ranked;
    ScoresAreComplete(scores, fused, ranked);
    var rescored := seq(|fused|, k requires 0 <= k < |fused| => fused[k].(score := scores[fused[k].chunkId]));
    assert rescored == Candidates(ranked);
    ordered := SortDesc(rescored, MinorOnly(ScoresOf(rescored)));
  }

  lemma AccumulateNothing()
    ensures Accumulated(map[], [], [], [])
  {
  }

  lemma ScoresAreComplete(scores: map<nat, real>, fused: seq<Candidate>, ranked: seq<seq<Candidate>>)
    requires Accumulated(scores, fused, ranked, [])
    ensures fused == FirstSeen(Flatten(ranked))
    ensures forall k :: 0 <= k < |fused| ==>
              fused[k].chunkId in scores && scores[fused[k].chunkId] == RrfScore(ranked, fused[k].chunkId)
  {
    assert Flatten(ranked) + [] == Flatten(ranked);
    forall k | 0 <= k < |fused|
      ensures fused[k].chunkId in scores && scores[fused[k].chunkId] == RrfScore(ranked, fused[k].chunkId)
    {
      assert Seen(fused, fused[k].chunkId);
    }
  }

  /** The score dict after one more chunk, as one of its ids sees it. */
  lemma OneMoreScore(
      scores: map<nat, real>, ranked: seq<seq<Candidate>>, part: seq<Candidate>, chunk: Candidate, id: nat)
    requires KnownScore(scores, id) == RrfScore(ranked, id) + RankScore(part, id)
    ensures KnownScore(scores[chunk.chunkId := KnownScore(scores, chunk.chunkId) + Inverse(|part|)], id)
         == RrfScore(ranked, id) + RankScore(part + [chunk], id)
  {
    RankScoreMore(part, chunk, id);
    hide RankScore, RrfScore, Inverse;
  }

  lemma OneMoreKey(scores: map<nat, real>, fused: seq<Candidate>, chunk: Candidate, score: real, id: nat)
    requires id in scores <==> Seen(fused, id)
    requires chunk.chunkId in scores <==> Seen(fused, chunk.chunkId)
    ensures id in scores[chunk.chunkId := score]
       <==> Seen(if Seen(fused, chunk.chunkId) then fused else fused + [chunk], id)
  {
    SeenMore(fused, chunk, id);
    hide Seen;
  }

  lemma AccumulateOne(
      scores: map<nat, real>, fused: seq<Candidate>, ranked: seq<seq<Candidate>>, part: seq<Candidate>,
      chunk: Candidate)
    requires Accumulated(scores, fused, ranked, part)
    ensures var known := KnownScore(scores, chunk.chunkId);
      Accumulated(scores[chunk.chunkId := known + Inverse(|part|)],
                  if Seen(fused, chunk.chunkId) then fused else fused + [chunk], ranked, part + [chunk])
  {
    hide Seen, FirstSeen, RankScore, RrfScore, Flatten, Inverse, KnownScore;
    var score := KnownScore(scores, chunk.chunkId) + Inverse(|part|);
    var more := scores[chunk.chunkId := score];
    var firsts := if Seen(fused, chunk.chunkId) then fused else fused + [chunk];
    FirstSeenMore(Flatten(ranked), part, chunk);
    forall id: nat ensures id in more <==> Seen(firsts, id) {
      OneMoreKey(scores, fused, chunk, score, id);
    }
    forall id: nat ensures KnownScore(more, id) == RrfScore(ranked, id) + RankScore(part + [chunk], id) {
      OneMoreScore(scores, ranked, part, chunk, id);
    }
  }

  lemma FirstSeenMore(head: seq<Candidate>, part: seq<Candidate>, chunk: Candidate)
    ensures FirstSeen(head + (part + [chunk]))
         == if Seen(FirstSeen(head + part), chunk.chunkId) then FirstSeen(head + part)
            else FirstSeen(head + part) + [chunk]
  {
    var all := head + part;
    assert head + (part + [chunk]) == all + [chunk];
    assert (all + [chunk])[..|all|] == all;
  }

  lemma RankScoreMore(part: seq<Candidate>, chunk: Candidate, id: nat)
    ensures RankScore(part + [chunk], id)
         == RankScore(part, id) + (if chunk.chunkId == id then Inverse(|part|) else 0.0)
  {
    assert (part + [chunk])[..|part|] == part;
  }

  lemma SeenMore(fused: seq<Candidate>, chunk: Candidate, id: nat)
    ensures Seen(fused + [chunk], id) <==> Seen(fused, id) || id == chunk.chunkId
  {
    var longer := fused + [chunk];
    if id == chunk.chunkId { assert longer[|fused|].chunkId == id; }
    if k :| 0 <= k < |fused| && fused[k].chunkId == id { assert longer[k].chunkId == id; }
    if k :| 0 <= k < |longer| && longer[k].chunkId == id { assert k == |fused| || fused[k].chunkId == id; }
  }

  lemma AccumulateList(
      scores: map<nat, real>, fused: seq<Candidate>, ranked: seq<seq<Candidate>>, list: seq<Candidate>)
    requires Accumulated(scores, fused, ranked, list)
    ensures Accumulated(scores, fused, ranked + [list], [])
  {
    var more := ranked + [list];
    assert more[..|ranked|] == ranked;
    assert Flatten(more) + [] == Flatten(ranked) + list;
    forall id: nat
      ensures KnownScore(scores, id) == RrfScore(more, id) + RankScore([], id)
    {
      assert KnownScore(scores, id) == RrfScore(ranked, id) + RankScore(list, id);
    }
  }

  // ----- First appearances -----

  /** Positions of the first appearances, in increasing order. */
  function FirstAt(chunks: seq<Candidate>): (at: seq<nat>)
    ensures |at| == |FirstSeen(chunks)|
    ensures forall k :: 0 <= k < |at| ==> at[k] < |chunks| && FirstSeen(chunks)[k] == chunks[at[k]]
    ensures forall j, k :: 0 <= j < k < |at| ==> at[j] < at[k]
  {
    if chunks == [] then []
    else
      var n := |chunks| - 1;
      FirstAt(chunks[..n]) + (if Seen(FirstSeen(chunks[..n]), chunks[n].chunkId) then [] else [n])
  }

  /** Every id is kept once, and the position kept is the earliest one. */
  lemma {:induction false} FirstSeenExact(chunks: seq<Candidate>)
    ensures forall id: nat :: Seen(FirstSeen(chunks), id) <==> Seen(chunks, id)
    ensures forall j, k :: 0 <= j < k < |FirstSeen(chunks)| ==>
              FirstSeen(chunks)[j].chunkId != FirstSeen(chunks)[k].chunkId
    ensures forall k, i :: 0 <= k < |FirstSeen(chunks)| && 0 <= i < FirstAt(chunks)[k] ==>
              chunks[i].chunkId != FirstSeen(chunks)[k].chunkId
    decreases |chunks|
  {
    if chunks != [] {
      var n := |chunks| - 1;
      var before, last := chunks[..n], chunks[n];
      FirstSeenExact(before);
      assert chunks == before + [last];
      var firsts := FirstSeen(before);
      forall id: nat ensures Seen(FirstSeen(chunks), id) <==> Seen(chunks, id) {
        SeenMore(before, last, id);
        SeenMore(firsts, last, id);
        assert Seen(firsts, id) <==> Seen(before, id);
      }
      assert Seen(firsts, last.chunkId) <==> Seen(before, last.chunkId);
    }
  }

  // ----- Scores of lists without repetitions -----

  predicate DistinctIds(chunks: seq<Candidate>) {
    forall j, k :: 0 <= j < k < |chunks| ==> chunks[j].chunkId != chunks[k].chunkId
  }

  lemma {:induction false} RankScoreAbsent(chunks: seq<Candidate>, id: nat)
    requires !Seen(chunks, id)
    ensures RankScore(chunks, id) == 0.0
    decreases |chunks|
  {
    if chunks != [] {
      var before := chunks[..|chunks| - 1];
      assert forall k :: 0 <= k < |before| ==> before[k] == chunks[k];
      assert !Seen(before, id);
      RankScoreAbsent(before, id);
    }
  }

  lemma {:induction false} RankScoreAt(chunks: seq<Candidate>, rank: nat)
    requires DistinctIds(chunks) && rank < |chunks|
    ensures RankScore(chunks, chunks[rank].chunkId) == Inverse(rank)
    decreases |chunks|
  {
    var before := chunks[..|chunks| - 1];
    if rank == |chunks| - 1 {
      RankScoreAbsent(before, chunks[rank].chunkId);
    } else {
      RankScoreAt(before, rank);
    }
  }

  lemma InverseDecreases(i: nat, j: nat)
    requires i <= j
    ensures Inverse(i) >= Inverse(j) > 0.0
  {
    var a, b := (RRF_K + i + 1) as real, (RRF_K + j + 1) as real;
    ReciprocalsOrdered(a, b);
  }

  lemma TwoLists(dense: seq<Candidate>, keyword: seq<Candidate>, id: nat)
    ensures RrfScore([dense, keyword], id) == RankScore(dense, id) + RankScore(keyword, id)
  {
    var none: seq<seq<Candidate>> := [];
    assert [dense, keyword][..1] == [dense] && [dense][..0] == none;
    assert RrfScore([dense], id) == RrfScore(none, id) + RankScore(dense, id);
  }

  // ----- Consensus dominance -----

  predicate InBoth(dense: seq<Candidate>, keyword: seq<Candidate>, id: nat) {
    Seen(dense, id) && Seen(keyword, id)
  }

  predicate InOne(dense: seq<Candidate>, keyword: seq<Candidate>, id: nat) {
    Seen(dense, id) != Seen(keyword, id)
  }

  /** For lists of at most `m` and `n` distinct ids, agreement always wins. */
  ghost predicate ConsensusDominates(m: nat, n: nat) {
    forall dense, keyword, both: nat, one: nat ::
      DistinctIds(dense) && DistinctIds(keyword) && |dense| <= m && |keyword| <= n
      && InBoth(dense, keyword, both) && InOne(dense, keyword, one)
      ==> RrfScore([dense, keyword], both) > RrfScore([dense, keyword], one)
  }

  /** The arithmetic of the worst case: last in both lists against first in one. */
  predicate WorstCaseWins(m: nat, n: nat) {
    (RRF_K + m) * (RRF_K + n) < (RRF_K + 1) * (2 * RRF_K + m + n)
  }

  lemma WorstCase(m: nat, n: nat)
    requires m > 0 && n > 0
    ensures Inverse(m - 1) + Inverse(n - 1) > Inverse(0) <==> WorstCaseWins(m, n)
  {
    var a, b := (RRF_K + m) as real, (RRF_K + n) as real;
    SumOfReciprocals(a, b);
    assert a * b == ((RRF_K + m) * (RRF_K + n)) as real;
  }

  lemma SumOfReciprocals(a: real, b: real)
    requires a > 0.0 && b > 0.0
    ensures 1.0 / a + 1.0 / b > 1.0 / 61.0 <==> a * b < 61.0 * (a + b)
  {
    var x, y := 1.0 / a, 1.0 / b;
    assert x * a == 1.0 && y * b == 1.0;
    var p := a * b;
    assert p > 0.0;
    assert (x + y) * p == a + b by {
      assert x * p == (x * a) * b == b;
      assert y * p == (y * b) * a == a;
    }
    var s := x + y;
    assert 61.0 * (s * p) == (61.0 * s) * p;
    if s > 1.0 / 61.0 {
      ProductsOrdered(1.0, 61.0 * s, p);
    } else {
      ProductsOrdered(61.0 * s, 1.0, p);
    }
  }

  /** A chunk in one list scores at most `1/61`. */
  lemma SingleScore(dense: seq<Candidate>, keyword: seq<Candidate>, one: nat)
    requires DistinctIds(dense) && DistinctIds(keyword) && InOne(dense, keyword, one)
    ensures RrfScore([dense, keyword], one) <= Inverse(0)
  {
    TwoLists(dense, keyword, one);
    var present, absent := if Seen(dense, one) then dense else keyword, if Seen(dense, one) then keyword else dense;
    RankScoreAbsent(absent, one);
    var k :| 0 <= k < |present| && present[k].chunkId == one;
    RankScoreAt(present, k);
    InverseDecreases(0, k);
  }

  lemma DoubleScore(dense: seq<Candidate>, keyword: seq<Candidate>, both: nat)
    requires DistinctIds(dense) && DistinctIds(keyword) && InBoth(dense, keyword, both)
    ensures |dense| > 0 && |keyword| > 0
    ensures RrfScore([dense, keyword], both) >= Inverse(|dense| - 1) + Inverse(|keyword| - 1)
  {
    TwoLists(dense, keyword, both);
    var i :| 0 <= i < |dense| && dense[i].chunkId == both;
    var j :| 0 <= j < |keyword| && keyword[j].chunkId == both;
    RankScoreAt(dense, i);
    RankScoreAt(keyword, j);
    InverseDecreases(i, |dense| - 1);
    InverseDecreases(j, |keyword| - 1);
  }

  function Blank(id: nat): Candidate { Candidate(id, 0, "", 0, None, None, 0.0) }

  /** The exact bound: agreement wins for all lists of these lengths exactly
      when it wins in the worst case. */
  lemma ConsensusBoundExact(m: nat, n: nat)
    ensures ConsensusDominates(m, n) <==> WorstCaseWins(m, n)
  {
    if WorstCaseWins(m, n) {
      forall dense, keyword, both: nat, one: nat |
        DistinctIds(dense) && DistinctIds(keyword) && |dense| <= m && |keyword| <= n
        && InBoth(dense, keyword, both) && InOne(dense, keyword, one)
        ensures RrfScore([dense, keyword], both) > RrfScore([dense, keyword], one)
      {
        DoubleScore(dense, keyword, both);
        SingleScore(dense, keyword, one);
        InverseDecreases(|dense| - 1, m - 1);
        InverseDecreases(|keyword| - 1, n - 1);
        WorstCase(m, n);
      }
    } else {
      if m < 2 || n < 2 { ShortListsWin(m, n); }
      ConsensusLoses(m, n);
    }
  }

  lemma ShortListsWin(m: nat, n: nat)
    requires m < 2 || n < 2
    ensures WorstCaseWins(m, n)
  {
    if m == 0 || m == 1 {
      assert (RRF_K + m) * (RRF_K + n) <= 61 * (RRF_K + n);
    } else {
      assert n == 0 || n == 1;
      assert (RRF_K + m) * (RRF_K + n) <= (RRF_K + m) * 61;
    }
  }

  lemma ConsensusLoses(m: nat, n: nat)
    requires m >= 2 && n >= 2 && !WorstCaseWins(m, n)
    ensures !ConsensusDominates(m, n)
  {
    var dense, keyword := Agreeing(m), Disagreeing(m, n);
    assert dense[m - 1].chunkId == m - 1 && keyword[n - 1].chunkId == m - 1 && dense[0].chunkId == 0;
    assert InBoth(dense, keyword, m - 1) && InOne(dense, keyword, 0);
    TwoLists(dense, keyword, m - 1);
    RankScoreAt(dense, m - 1);
    RankScoreAt(keyword, n - 1);
    TwoLists(dense, keyword, 0);
    RankScoreAt(dense, 0);
    RankScoreAbsent(keyword, 0);
    WorstCase(m, n);
  }

  /** `0, 1, ..., m - 1`, against a list whose only common id `m - 1` comes last. */
  function Agreeing(m: nat): (r: seq<Candidate>)
    ensures |r| == m && DistinctIds(r) && forall k :: 0 <= k < m ==> r[k].chunkId == k
  {
    seq(m, k requires 0 <= k < m => Blank(k))
  }

  function Disagreeing(m: nat, n: nat): (r: seq<Candidate>)
    requires m >= 2
    ensures |r| == n && DistinctIds(r)
    ensures forall k :: 0 <= k < n ==> r[k].chunkId == (if k == n - 1 then m - 1 else m + k)
  {
    var ids := seq(n, k requires 0 <= k < n => if k == n - 1 then m - 1 else m + k);
    seq(n, k requires 0 <= k < n => Blank(ids[k]))
  }

  lemma SquareBelow(d: nat)
    requires d > 0
    ensures d * d < 61 * (2 * d) <==> d < 122
  {
    assert d * d == 122 * d + (d - 122) * d;
    var over := d - 122;
    if over >= 0 {
      assert over * d >= 0;
    } else {
      assert -over * d > 0;
    }
  }

  /** With lists of up to 61 the guarantee holds, with 62 it does not. */
  lemma SixtyOneIsTheLimit(k: nat)
    ensures ConsensusDominates(k, k) <==> k <= RRF_K + 1
  {
    hide ConsensusDominates;
    ConsensusBoundExact(k, k);
    SquareBelow(k + RRF_K);
  }

  lemma Expanded(x: int, y: int)
    ensures (x + 61) * (y + 61) == x * y + 61 * x + 61 * y + 3721
  {
  }

  lemma SmallProduct(x: int, y: int)
    requires -1 <= x <= 60 && -1 <= y <= 60
    ensures x * y < 3721
  {
    if y > 0 {
      IntProductsOrdered(x, 60, y);
    } else if y < 0 {
      assert x * y == -x;
    }
  }

  /** All lists of up to 61 are within the bound. */
  lemma SixtyOneSuffices(m: nat, n: nat)
    requires m <= RRF_K + 1 && n <= RRF_K + 1
    ensures WorstCaseWins(m, n)
  {
    SmallProduct(m - 1, n - 1);
    Expanded(m - 1, n - 1);
  }

  // ----- What the fused list is -----

  /** The position at which the id appears first. */
  function FirstIndex(chunks: seq<Candidate>, id: nat): (i: nat)
    requires Seen(chunks, id)
    ensures i < |chunks| && chunks[i].chunkId == id
    ensures forall j :: 0 <= j < i ==> chunks[j].chunkId != id
  {
    var n := |chunks| - 1;
    if Seen(chunks[..n], id) then FirstIndex(chunks[..n], id) else n
  }

  /** Higher score, or equal score and earlier first appearance. */
  predicate FusedBefore(ranked: seq<seq<Candidate>>, a: nat, b: nat)
    requires Seen(Flatten(ranked), a) && Seen(Flatten(ranked), b)
  {
    var sa, sb := RrfScore(ranked, a), RrfScore(ranked, b);
    sa > sb || (sa == sb && FirstIndex(Flatten(ranked), a) < FirstIndex(Flatten(ranked), b))
  }

  lemma FusedOrigin(ranked: seq<seq<Candidate>>, p: nat) returns (k: nat)
    requires p < |Fused(ranked)|
    ensures k < |Candidates(ranked)| && k == Order(MinorOnly(ScoresOf(Candidates(ranked))))[p]
    ensures var id := Fused(ranked)[p].chunkId;
      && Fused(ranked)[p] == Candidates(ranked)[k] && Seen(Flatten(ranked), id)
      && Fused(ranked)[p].score == RrfScore(ranked, id)
      && FirstIndex(Flatten(ranked), id) == FirstAt(Flatten(ranked))[k]
  {
    hide RrfScore, Order;
    k := Order(MinorOnly(ScoresOf(Candidates(ranked))))[p];
    var all := Flatten(ranked);
    FirstSeenExact(all);
    assert all[FirstAt(all)[k]].chunkId == Candidates(ranked)[k].chunkId;
  }

  /** In the fused list a chunk precedes another exactly when its score is higher,
      or equal and its id appeared first. */
  lemma FusedOrder(ranked: seq<seq<Candidate>>, p: nat, q: nat)
    requires p < |Fused(ranked)| && q < |Fused(ranked)|
    ensures var a, b := Fused(ranked)[p], Fused(ranked)[q];
      && a.score == RrfScore(ranked, a.chunkId) && b.score == RrfScore(ranked, b.chunkId)
      && Seen(Flatten(ranked), a.chunkId) && Seen(Flatten(ranked), b.chunkId)
      && (p < q <==> FusedBefore(ranked, a.chunkId, b.chunkId))
      && (p != q ==> a.chunkId != b.chunkId)
  {
    hide RrfScore, Flatten, Candidates, Fused, FirstIndex;
    var keys := MinorOnly(ScoresOf(Candidates(ranked)));
    OrderSorts(keys);
    var i := FusedOrigin(ranked, p);
    var j := FusedOrigin(ranked, q);
    var at := FirstAt(Flatten(ranked));
    FirstAtCandidates(ranked);
    assert p < q ==> Precedes(keys, i, j);
    assert q < p ==> Precedes(keys, j, i);
  }

  lemma FirstAtCandidates(ranked: seq<seq<Candidate>>)
    ensures |FirstAt(Flatten(ranked))| == |Candidates(ranked)|
  {
  }

  /** Chunks both searches agree on come before all others. */
  lemma ConsensusFirst(dense: seq<Candidate>, keyword: seq<Candidate>, p: nat, q: nat)
    requires DistinctIds(dense) && DistinctIds(keyword)
    requires WorstCaseWins(|dense|, |keyword|)
    requires p < |Fused([dense, keyword])| && q < |Fused([dense, keyword])|
    requires InBoth(dense, keyword, Fused([dense, keyword])[p].chunkId)
    requires InOne(dense, keyword, Fused([dense, keyword])[q].chunkId)
    ensures p < q
  {
    var ranked := [dense, keyword];
    var both, one := Fused(ranked)[p].chunkId, Fused(ranked)[q].chunkId;
    ConsensusBoundExact(|dense|, |keyword|);
    assert RrfScore([dense, keyword], both) > RrfScore([dense, keyword], one);
    FusedOrder(ranked, p, q);
  }
}
