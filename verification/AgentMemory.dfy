/** Long-term agent memory (app/services/agent/memory.py). */
module AgentMemory {
  import opened BoundedLog
  import opened Ranking
  import opened Vectors

  datatype Entry = Entry(vector: Vector, summary: string)

  function Keys(entries: seq<Entry>, query: Vector): (keys: seq<Key>)
    ensures |keys| == |entries|
    ensures forall k :: 0 <= k < |keys| ==> keys[k] == Key(0, Score(query, entries[k].vector))
  {
    seq(|entries|, k requires 0 <= k < |entries| => Key(0, Score(query, entries[k].vector)))
  }

  function Summaries(entries: seq<Entry>): (r: seq<string>)
    ensures |r| == |entries| && forall k :: 0 <= k < |r| ==> r[k] == entries[k].summary
  {
    seq(|entries|, k requires 0 <= k < |entries| => entries[k].summary)
  }

  function Recalled(entries: seq<Entry>, query: Vector, topK: int): seq<string> {
    if topK <= 0 then [] else Summaries(Take(SortDesc(entries, Keys(entries, query)), topK))
  }

  class AgentMemory {
    const maxEntries: int
    var byWorkspace: Lists<Entry>

    constructor (maxEntries: int)
      ensures this.maxEntries == maxEntries && byWorkspace == map[]
    {
      this.maxEntries, byWorkspace := maxEntries, map[];
    }

    /** `at` are the positions of the recalled entries, the most similar first and the
        oldest first among equals; no other entry of the workspace beats any of them. */
    method Recall(workspaceId: nat, query: Vector, topK: int) returns (summaries: seq<string>, ghost at: seq<nat>)
      ensures var entries := Entries(byWorkspace, workspaceId);
        && |summaries| == |at| == (if topK <= 0 then 0 else if |entries| < topK then |entries| else topK)
        && IsTop(Keys(entries, query), at)
        && forall k :: 0 <= k < |at| ==> summaries[k] == entries[at[k]].summary
      ensures summaries == Recalled(Entries(byWorkspace, workspaceId), query, topK)
    {
      var entries := Entries(byWorkspace, workspaceId);
      if entries == [] || topK <= 0 {
        return [], [];
      }
      at := Take(Order(Keys(entries, query)), topK);
      TopOfOrder(Keys(entries, query), topK);
      var scored := SortDesc(entries, Keys(entries, query));
      summaries := Summaries(Take(scored, topK));
    }

    method Remember(workspaceId: nat, query: Vector, summary: string)
      modifies this
      ensures byWorkspace == Apply(old(byWorkspace), Store(workspaceId, Entry(query, summary)), maxEntries)
    {
      var entries := Entries(byWorkspace, workspaceId) + [Entry(query, summary)];
      if |entries| > maxEntries {
        entries := entries[1..];
      }
      byWorkspace := byWorkspace[workspaceId := entries];
    }

    method Clear()
      modifies this
      ensures byWorkspace == Apply(old(byWorkspace), LogOp.Clear, maxEntries)
    {
      byWorkspace := map[];
    }
  }

  /** After any run, recall lists the summaries of the last `maxEntries` stores,
      most similar first and oldest first among equals, cut to `topK`. */
  lemma {:induction false} RecallRefinesLog(
      log: seq<LogOp<Entry>>, maxEntries: int, workspaceId: nat, query: Vector, topK: nat)
    ensures var recent := Last(Stored(log, workspaceId), maxEntries);
      var order := Order(Keys(recent, query));
      && IsOrder(Keys(recent, query), order)
      && Recalled(Entries(Run(log, maxEntries), workspaceId), query, topK)
         == Summaries(Take(Permute(recent, order), topK))
  {
    BoundedIsTailOfLog(log, maxEntries, workspaceId);
    OrderSorts(Keys(Last(Stored(log, workspaceId), maxEntries), query));
  }

  /** No forgotten or cut-off summary is more similar than a recalled one, and of
      two equally similar ones the older is recalled first. */
  lemma RecallPrefersOlder(entries: seq<Entry>, query: Vector, p: nat, q: nat)
    requires p < q < |entries|
    ensures var order := Order(Keys(entries, query));
      var sp, sq := Score(query, entries[order[p]].vector), Score(query, entries[order[q]].vector);
      sp > sq || (sp == sq && order[p] < order[q])
  {
    hide Score;
    OrderSorts(Keys(entries, query));
    assert Precedes(Keys(entries, query), Order(Keys(entries, query))[p], Order(Keys(entries, query))[q]);
  }
}
