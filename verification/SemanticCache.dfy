/** The semantic answer cache (app/services/semantic_cache.py). Scores are signed
    squares of cosines, so the threshold is squared the same way. */
module SemanticCache {
  import opened BoundedLog
  import opened Vectors
  import opened Wrappers

  datatype CachedAnswer = CachedAnswer(answer: string, citations: seq<string>)

  datatype Entry = Entry(vector: Vector, value: CachedAnswer)

  /** The position the scan ends on: a later entry wins if it is at least as good. */
  function BestIndex(entries: seq<Entry>, query: Vector, floor: real): (best: int)
    ensures -1 <= best < |entries|
  {
    if entries == [] then -1
    else
      var last := |entries| - 1;
      var before := BestIndex(entries[..last], query, floor);
      var toBeat := if before == -1 then floor else Score(query, entries[before].vector);
      if Score(query, entries[last].vector) >= toBeat then last else before
  }

  function Found(entries: seq<Entry>, query: Vector, threshold: real): Option<CachedAnswer> {
    var best := BestIndex(entries, query, SignedSquare(threshold));
    if best == -1 then None else Some(entries[best].value)
  }

  /** The latest of the entries with the greatest score, if that reaches the floor. */
  predicate IsBest(entries: seq<Entry>, query: Vector, floor: real, best: int) {
    && 0 <= best < |entries|
    && Score(query, entries[best].vector) >= floor
    && (forall k :: 0 <= k < |entries| ==> Score(query, entries[k].vector) <= Score(query, entries[best].vector))
    && (forall k :: best < k < |entries| ==> Score(query, entries[k].vector) < Score(query, entries[best].vector))
  }

  lemma {:induction false} BestIndexExact(entries: seq<Entry>, query: Vector, floor: real)
    ensures BestIndex(entries, query, floor) == -1 <==>
      forall k :: 0 <= k < |entries| ==> Score(query, entries[k].vector) < floor
    ensures BestIndex(entries, query, floor) != -1 ==>
      IsBest(entries, query, floor, BestIndex(entries, query, floor))
    decreases |entries|
  {
    hide Score;
    if entries != [] {
      BestIndexExact(entries[..|entries| - 1], query, floor);
    }
  }

  lemma BestIsUnique(entries: seq<Entry>, query: Vector, floor: real, best: int)
    requires IsBest(entries, query, floor, best)
    ensures BestIndex(entries, query, floor) == best
  {
    hide Score, BestIndex;
    BestIndexExact(entries, query, floor);
    var i := BestIndex(entries, query, floor);
    assert Score(query, entries[best].vector) >= floor;
  }

  class SemanticCache {
    const maxEntries: int
    var byWorkspace: Lists<Entry>

    constructor (maxEntries: int)
      ensures this.maxEntries == maxEntries && byWorkspace == map[]
    {
      this.maxEntries, byWorkspace := maxEntries, map[];
    }

    method Lookup(workspaceId: nat, query: Vector, threshold: real) returns (best: Option<CachedAnswer>)
      ensures best == Found(Entries(byWorkspace, workspaceId), query, threshold)
    {
      var entries := Entries(byWorkspace, workspaceId);
      if entries == [] {
        return None;
      }
      best := None;
      var floor := SignedSquare(threshold);
      var bestScore := floor;
      for k := 0 to |entries|
        invariant var b := BestIndex(entries[..k], query, floor);
          && bestScore == (if b == -1 then floor else Score(query, entries[b].vector))
          && best == (if b == -1 then None else Some(entries[b].value))
      {
        assert entries[..k + 1][..k] == entries[..k];
        var score := Score(query, entries[k].vector);
        if score >= bestScore {
          bestScore, best := score, Some(entries[k].value);
        }
      }
      assert entries[..|entries|] == entries;
    }

    method Store(workspaceId: nat, query: Vector, value: CachedAnswer)
      modifies this
      ensures byWorkspace == Apply(old(byWorkspace), LogOp.Store(workspaceId, Entry(query, value)), maxEntries)
    {
      var entries := Entries(byWorkspace, workspaceId) + [Entry(query, value)];
      if |entries| > maxEntries {
        entries := entries[1..];
      }
      byWorkspace := byWorkspace[workspaceId := entries];
    }

    method Clear()
      modifies this
      ensures byWorkspace == Apply(old(byWorkspace), LogOp.Clear, maxEntries)
    {
      byWorkspace := map[];
    }
  }

  // ----- Lookups against the log -----

  function LookupAfter(log: seq<LogOp<Entry>>, maxEntries: int, workspaceId: nat, query: Vector, threshold: real)
    : Option<CachedAnswer>
  {
    Found(Entries(Run(log, maxEntries), workspaceId), query, threshold)
  }

  /** The highest threshold at which `query` still matches itself. */
  function SelfScore(query: Vector): real { if Norm2(query) == 0.0 then 0.0 else 1.0 }

  lemma SelfScoreIsMaximal(query: Vector, other: Vector)
    ensures Score(query, query) == SelfScore(query)
    ensures Score(query, other) <= SelfScore(query)
  {
    ScoreSelf(query, other);
    ScoreSelf(query, query);
    ScoreAtMostOne(query, other);
  }

  lemma ThresholdReached(query: Vector, threshold: real)
    ensures SelfScore(query) >= SignedSquare(threshold) <==> threshold <= SelfScore(query)
  {
    SignedSquareMonotone(SelfScore(query), threshold);
    assert SignedSquare(0.0) == 0.0 && SignedSquare(1.0) == 1.0;
  }

  /** A lookup after any run answers with the latest of the best-scoring entries
      among the last `maxEntries` stored since the last clear. */
  lemma LookupRefinesLog(
      log: seq<LogOp<Entry>>, maxEntries: int, workspaceId: nat, query: Vector, threshold: real, best: int)
    requires IsBest(Last(Stored(log, workspaceId), maxEntries), query, SignedSquare(threshold), best)
    ensures LookupAfter(log, maxEntries, workspaceId, query, threshold)
         == Some(Last(Stored(log, workspaceId), maxEntries)[best].value)
  {
    BoundedIsTailOfLog(log, maxEntries, workspaceId);
    BestIsUnique(Last(Stored(log, workspaceId), maxEntries), query, SignedSquare(threshold), best);
  }

  /** ... and misses exactly when none of those reaches the threshold. */
  lemma MissRefinesLog(
      log: seq<LogOp<Entry>>, maxEntries: int, workspaceId: nat, query: Vector, threshold: real)
    ensures LookupAfter(log, maxEntries, workspaceId, query, threshold).None? <==>
      var recent := Last(Stored(log, workspaceId), maxEntries);
      forall k :: 0 <= k < |recent| ==> Score(query, recent[k].vector) < SignedSquare(threshold)
  {
    hide Score, BestIndex;
    BoundedIsTailOfLog(log, maxEntries, workspaceId);
    BestIndexExact(Last(Stored(log, workspaceId), maxEntries), query, SignedSquare(threshold));
  }

  /** Read your writes: a lookup right after a store of the same vector returns the
      stored value, whatever else is cached, exactly when the cache has room for an
      entry and the threshold is at most 1 (at most 0 for the zero vector). */
  lemma ReadYourWrites(
      log: seq<LogOp<Entry>>, maxEntries: int, workspaceId: nat, query: Vector, value: CachedAnswer, threshold: real)
    ensures LookupAfter(log + [LogOp.Store(workspaceId, Entry(query, value))], maxEntries, workspaceId, query,
                        threshold)
         == if maxEntries >= 1 && threshold <= SelfScore(query) then Some(value) else None
  {
    hide Score, SelfScore, SignedSquare;
    var entry := Entry(query, value);
    var after := log + [LogOp.Store(workspaceId, entry)];
    BoundedIsTailOfLog(after, maxEntries, workspaceId);
    assert after[..|log|] == log;
    var recent := Last(Stored(log, workspaceId) + [entry], maxEntries);
    ThresholdReached(query, threshold);
    forall k | 0 <= k < |recent| ensures Score(query, recent[k].vector) <= SelfScore(query) {
      SelfScoreIsMaximal(query, recent[k].vector);
    }
    SelfScoreIsMaximal(query, query);
    BestIndexExact(recent, query, SignedSquare(threshold));
    if maxEntries >= 1 {
      assert recent[|recent| - 1] == entry;
      if threshold <= SelfScore(query) {
        BestIsUnique(recent, query, SignedSquare(threshold), |recent| - 1);
      }
    }
  }

  /** Later lookups of the vector still hit until `maxEntries` further stores. */
  lemma StillCached(
      log: seq<LogOp<Entry>>, more: seq<LogOp<Entry>>, maxEntries: int,
      workspaceId: nat, query: Vector, value: CachedAnswer, threshold: real)
    requires NoClear(more) && |Stored(more, workspaceId)| < maxEntries
    requires threshold <= SelfScore(query)
    ensures LookupAfter(log + [LogOp.Store(workspaceId, Entry(query, value))] + more,
                        maxEntries, workspaceId, query, threshold).Some?
  {
    hide Score, SelfScore, SignedSquare, Run, BestIndex;
    var entry := Entry(query, value);
    var first := log + [LogOp.Store(workspaceId, entry)];
    assert first[..|log|] == log;
    StoredConcat(first, more, workspaceId);
    BoundedIsTailOfLog(first + more, maxEntries, workspaceId);
    var later := Stored(more, workspaceId);
    hide Stored;
    var k := StillAmongLast(Stored(log, workspaceId), entry, later, maxEntries);
    SelfScoreIsMaximal(query, query);
    ThresholdReached(query, threshold);
    BestIndexExact(Last(Stored(log, workspaceId) + [entry] + later, maxEntries), query, SignedSquare(threshold));
  }

  /** Whatever `n` further stores follow, a lookup of the vector still hits. */
  ghost predicate Survives(maxEntries: int, query: Vector, threshold: real, n: nat) {
    forall log, more, workspaceId: nat, value ::
      NoClear(more) && |Stored(more, workspaceId)| == n ==>
        LookupAfter(log + [LogOp.Store(workspaceId, Entry(query, value))] + more,
                    maxEntries, workspaceId, query, threshold).Some?
  }

  function Fillers(n: nat): (more: seq<LogOp<Entry>>)
    ensures |more| == n && NoClear(more)
    ensures forall k :: 0 <= k < n ==> more[k] == LogOp.Store(0, Entry([], CachedAnswer("", [])))
  {
    seq(n, k requires 0 <= k < n => LogOp.Store(0, Entry([], CachedAnswer("", []))))
  }

  lemma {:induction false} FillersStored(n: nat)
    ensures |Stored(Fillers(n), 0)| == n
    ensures forall k :: 0 <= k < n ==> Stored(Fillers(n), 0)[k].vector == []
    decreases n
  {
    if n > 0 {
      FillersStored(n - 1);
      assert Fillers(n)[..n - 1] == Fillers(n - 1);
    }
  }

  /** After `maxEntries` stores of an unrelated vector the entry is gone. */
  lemma Evicted(maxEntries: int, query: Vector, threshold: real, value: CachedAnswer, n: nat)
    requires 0.0 < threshold && n >= maxEntries
    ensures LookupAfter([LogOp.Store(0, Entry(query, value))] + Fillers(n), maxEntries, 0, query, threshold).None?
  {
    hide Run, BestIndex, Score, SignedSquare, LookupAfter, Fillers;
    var none: seq<LogOp<Entry>> := [];
    var first, log := [LogOp.Store(0, Entry(query, value))], [LogOp.Store(0, Entry(query, value))] + Fillers(n);
    FillersStored(n);
    StoredConcat(first, Fillers(n), 0);
    MissRefinesLog(log, maxEntries, 0, query, threshold);
    SignedSquareMonotone(0.0, threshold);
    var recent := Last(Stored(log, 0), maxEntries);
    assert first[..0] == none;
    forall k | 0 <= k < |recent| ensures Score(query, recent[k].vector) < SignedSquare(threshold) {
      assert recent[k] == Stored(Fillers(n), 0)[n - |recent| + k];
      NoScore(query);
    }
  }

  lemma NoScore(query: Vector)
    ensures Score(query, []) == 0.0 && SignedSquare(0.0) == 0.0
  {
  }

  /** The bound is exact: an entry is sure to survive `n` further stores to its
      workspace if and only if `n` is below the capacity. */
  lemma SurvivalExact(maxEntries: int, query: Vector, threshold: real, n: nat)
    requires 0.0 < threshold <= SelfScore(query)
    ensures Survives(maxEntries, query, threshold, n) <==> n < maxEntries
  {
    hide SelfScore, Score, SignedSquare, Run, BestIndex, LookupAfter;
    if n < maxEntries {
      forall log, more, workspaceId: nat, value | NoClear(more) && |Stored(more, workspaceId)| == n
        ensures LookupAfter(log + [LogOp.Store(workspaceId, Entry(query, value))] + more,
                            maxEntries, workspaceId, query, threshold).Some?
      {
        StillCached(log, more, maxEntries, workspaceId, query, value, threshold);
      }
    } else {
      var none: seq<LogOp<Entry>> := [];
      var value := CachedAnswer("", []);
      FillersStored(n);
      Evicted(maxEntries, query, threshold, value, n);
      assert none + [LogOp.Store(0, Entry(query, value))] == [LogOp.Store(0, Entry(query, value))];
      assert LookupAfter(none + [LogOp.Store(0, Entry(query, value))] + Fillers(n),
                         maxEntries, 0, query, threshold).None?;
    }
  }

  lemma StillAmongLast(before: seq<Entry>, entry: Entry, later: seq<Entry>, maxEntries: int)
      returns (k: nat)
    requires |later| < maxEntries
    ensures k < |Last(before + [entry] + later, maxEntries)|
    ensures Last(before + [entry] + later, maxEntries)[k] == entry
  {
    k := |Last(before + [entry] + later, maxEntries)| - |later| - 1;
  }
}
