/** The in-memory vector index (app/ai/vectorstore/memory.py). The dict from id to
    record is a sequence of records with distinct ids, in insertion order. */
module VectorStore {
  import opened Lists
  import opened Ranking
  import opened Vectors
  import opened Wrappers

  datatype Payload = Payload(
    workspaceId: nat, documentId: nat, chunkId: nat,
    ordinal: nat, page: Option<int>, section: Option<string>, text: string)

  datatype VectorRecord = VectorRecord(id: nat, vector: Vector, payload: Payload)

  datatype SearchResult = SearchResult(id: nat, score: real, payload: Payload)

  predicate Distinct(records: seq<VectorRecord>) {
    forall i, j :: 0 <= i < j < |records| ==> records[i].id != records[j].id
  }

  predicate Scoped(record: VectorRecord, workspaceId: nat) { record.payload.workspaceId == workspaceId }

  predicate Belongs(record: VectorRecord, workspaceId: nat, documentId: nat) {
    Scoped(record, workspaceId) && record.payload.documentId == documentId
  }

  // The conditions of the comprehensions, as values.
  function OwnedBy(workspaceId: nat): VectorRecord -> bool { (r: VectorRecord) => Scoped(r, workspaceId) }

  function PartOf(
      workspaceId: nat, documentId: nat): VectorRecord -> bool { (r: VectorRecord) => Belongs(r, workspaceId,
      documentId) }

  function NotOf(
      workspaceId: nat, documentId: nat): VectorRecord -> bool { (r: VectorRecord) => !Belongs(r, workspaceId,
      documentId) }

  function OtherThan(key: nat): VectorRecord -> bool { (r: VectorRecord) => r.id != key }

  function NoneOf(keys: seq<nat>): VectorRecord -> bool { (r: VectorRecord) => r.id !in keys }

  function ConcernsWorkspace(workspaceId: nat): StoreOp -> bool { (op: StoreOp) => Concerns(op, workspaceId) }

  // ----- The dict operations -----

  /** `records[record.id] = record`: a known id keeps its place, a new one goes last. */
  function Put(records: seq<VectorRecord>, record: VectorRecord): seq<VectorRecord> {
    if records == [] then [record]
    else if records[0].id == record.id then [record] + records[1..]
    else [records[0]] + Put(records[1..], record)
  }

  function PutAll(records: seq<VectorRecord>, batch: seq<VectorRecord>): seq<VectorRecord> {
    if batch == [] then records
    else Put(PutAll(records, batch[..|batch| - 1]), batch[|batch| - 1])
  }

  /** `del records[key]` */
  function Drop(records: seq<VectorRecord>, key: nat): seq<VectorRecord> {
    Filter(records, OtherThan(key))
  }

  function DropAll(records: seq<VectorRecord>, keys: seq<nat>): seq<VectorRecord> {
    if keys == [] then records else Drop(DropAll(records, keys[..|keys| - 1]), keys[|keys| - 1])
  }

  function DocumentKeys(records: seq<VectorRecord>, workspaceId: nat, documentId: nat): seq<nat> {
    var own := Filter(records, PartOf(workspaceId, documentId));
    seq(|own|, i requires 0 <= i < |own| => own[i].id)
  }

  /** What deleting a document leaves. */
  function Without(records: seq<VectorRecord>, workspaceId: nat, documentId: nat): seq<VectorRecord> {
    Filter(records, NotOf(workspaceId, documentId))
  }

  function InWorkspace(records: seq<VectorRecord>, workspaceId: nat): seq<VectorRecord> {
    Filter(records, OwnedBy(workspaceId))
  }

  function Scores(embedding: Vector, records: seq<VectorRecord>): (keys: seq<Key>)
    ensures |keys| == |records|
    ensures forall i :: 0 <= i < |keys| ==> keys[i] == Key(0, Score(embedding, records[i].vector))
  {
    seq(|records|, i requires 0 <= i < |records| => Key(0, Score(embedding, records[i].vector)))
  }

  function Ranked(records: seq<VectorRecord>, embedding: Vector, workspaceId: nat): seq<VectorRecord> {
    var scoped := InWorkspace(records, workspaceId);
    SortDesc(scoped, Scores(embedding, scoped))
  }

  function Hits(embedding: Vector, records: seq<VectorRecord>): (hits: seq<SearchResult>)
    ensures |hits| == |records|
    ensures forall i :: 0 <= i < |hits| ==>
              hits[i] == SearchResult(records[i].id, Score(embedding, records[i].vector), records[i].payload)
  {
    seq(|records|, i requires 0 <= i < |records| =>
      SearchResult(records[i].id, Score(embedding, records[i].vector), records[i].payload))
  }

  function SearchHits(records: seq<VectorRecord>, embedding: Vector, workspaceId: nat, limit: nat): seq<SearchResult> {
    Hits(embedding, Take(Ranked(records, embedding, workspaceId), limit))
  }

  // ----- The class -----

  class InMemoryVectorStore {
    var records: seq<VectorRecord>

    ghost predicate Valid()
      reads this
    {
      Distinct(records)
    }

    constructor ()
      ensures Valid() && records == []
    {
      records := [];
    }

    method Upsert(batch: seq<VectorRecord>)
      requires Valid()
      modifies this
      ensures Valid() && records == PutAll(old(records), batch)
    {
      for i := 0 to |batch|
        invariant Valid() && records == PutAll(old(records), batch[..i])
      {
        PutKeepsDistinct(records, batch[i]);
        assert batch[..i + 1][..i] == batch[..i];
        records := Put(records, batch[i]);
      }
      assert batch[..|batch|] == batch;
    }

    /** `done` bounds how many keys are deleted before an exception stops the loop. */
    method DeleteByDocument(workspaceId: nat, documentId: nat, done: nat)
      requires Valid()
      modifies this
      ensures Valid()
      ensures records == DropAll(old(records), Take(DocumentKeys(old(records), workspaceId, documentId), done))
      ensures done >= |old(records)| ==> records == Without(old(records), workspaceId, documentId)
    {
      ghost var was := records;
      var toDelete := DocumentKeys(records, workspaceId, documentId);
      var keys := Take(toDelete, done);
      for i := 0 to |keys|
        invariant Valid() && records == DropAll(was, keys[..i])
      {
        DropKeepsDistinct(records, keys[i]);
        assert keys[..i + 1][..i] == keys[..i];
        records := Drop(records, keys[i]);
      }
      assert keys[..|keys|] == keys;
      if done >= |was| {
        assert keys == toDelete;
        DroppingKeysDeletes(was, workspaceId, documentId);
      }
    }

    /** `at` are the positions of the hits among the workspace's records in insertion
        order: best score first, earlier record first among equals, and no record of
        the workspace that is left out beats a hit. */
    method Search(embedding: Vector, workspaceId: nat, limit: nat)
      returns (hits: seq<SearchResult>, ghost at: seq<nat>)
      ensures var scoped := InWorkspace(records, workspaceId);
        && |hits| == |at| == (if |scoped| < limit then |scoped| else limit)
        && IsTop(Scores(embedding, scoped), at)
        && forall k :: 0 <= k < |hits| ==>
             var record := scoped[at[k]];
             && Scoped(record, workspaceId) && record in records
             && hits[k] == SearchResult(record.id, Score(embedding, record.vector), record.payload)
      ensures hits == SearchHits(records, embedding, workspaceId, limit)
    {
      var scoped := InWorkspace(records, workspaceId);
      ghost var from := Where(records, OwnedBy(workspaceId));
      at := Take(Order(Scores(embedding, scoped)), limit);
      TopOfOrder(Scores(embedding, scoped), limit);
      forall k | 0 <= k < |at| ensures Scoped(scoped[at[k]], workspaceId) && scoped[at[k]] in records {
        assert OwnedBy(workspaceId)(scoped[at[k]]) && scoped[at[k]] == records[from[at[k]]];
      }
      var scored := SortDesc(scoped, Scores(embedding, scoped));
      hits := Hits(embedding, Take(scored, limit));
    }
  }

  // ----- Facts about the dict -----

  /** Assigning a key replaces in place or appends. */
  lemma {:induction false} PutEffect(records: seq<VectorRecord>, record: VectorRecord)
    requires Distinct(records)
    ensures forall k :: 0 <= k < |records| && records[k].id == record.id ==>
              Put(records, record) == records[k := record]
    ensures (forall k :: 0 <= k < |records| ==> records[k].id != record.id) ==>
              Put(records, record) == records + [record]
    decreases |records|
  {
    if records != [] && records[0].id != record.id {
      var rest := records[1..];
      PutEffect(rest, record);
      forall k | 0 <= k < |records| && records[k].id == record.id
        ensures Put(records, record) == records[k := record]
      {
        assert rest[k - 1].id == record.id;
        assert records[k := record] == [records[0]] + rest[k - 1 := record];
      }
    }
  }

  lemma PutKeepsDistinct(records: seq<VectorRecord>, record: VectorRecord)
    requires Distinct(records)
    ensures Distinct(Put(records, record))
  {
    PutEffect(records, record);
    if k :| 0 <= k < |records| && records[k].id == record.id {
      assert Put(records, record) == records[k := record];
    }
  }

  lemma FilterKeepsDistinct(records: seq<VectorRecord>, p: VectorRecord -> bool)
    requires Distinct(records)
    ensures Distinct(Filter(records, p))
  {
    var at := Where(records, p);
    forall i, j | 0 <= i < j < |Filter(records, p)|
      ensures Filter(records, p)[i].id != Filter(records, p)[j].id
    {
      assert at[i] < at[j];
    }
  }

  lemma DropKeepsDistinct(records: seq<VectorRecord>, key: nat)
    requires Distinct(records)
    ensures Distinct(Drop(records, key))
  {
    FilterKeepsDistinct(records, OtherThan(key));
  }

  lemma {:induction false} DropAllFilters(records: seq<VectorRecord>, keys: seq<nat>)
    ensures DropAll(records, keys) == Filter(records, NoneOf(keys))
    decreases |keys|
  {
    if keys == [] {
      FilterAll(records, NoneOf(keys));
    } else {
      var before, last := keys[..|keys| - 1], keys[|keys| - 1];
      DropAllFilters(records, before);
      assert keys == before + [last];
      var kept := Filter(records, NoneOf(before));
      FilterTwice(records, NoneOf(before), NoneOf(keys));
      FilterSame(kept, NoneOf(keys), OtherThan(last));
    }
  }

  /** Deleting the collected keys one by one removes exactly the document's records. */
  lemma DroppingKeysDeletes(records: seq<VectorRecord>, workspaceId: nat, documentId: nat)
    requires Distinct(records)
    ensures DropAll(records, DocumentKeys(records, workspaceId, documentId))
         == Without(records, workspaceId, documentId)
  {
    var own := PartOf(workspaceId, documentId);
    var keys := DocumentKeys(records, workspaceId, documentId);
    var at := Where(records, own);
    DropAllFilters(records, keys);
    forall k | 0 <= k < |records|
      ensures (records[k].id !in keys) == !Belongs(records[k], workspaceId, documentId)
    {
      if own(records[k]) {
        var n := WhereComplete(records, own, k);
        assert keys[n] == records[k].id;
      }
      if records[k].id in keys {
        var n :| 0 <= n < |keys| && keys[n] == records[k].id;
        assert records[at[n]].id == records[k].id;
        assert at[n] == k;
      }
    }
    FilterSame(records, NoneOf(keys), NotOf(workspaceId, documentId));
  }

  // ----- The operation log -----

  /** `Remove` is one `del` of the deletion loop; an interrupted deletion consists of
      a few of them. */
  datatype StoreOp =
    | Upsert(record: VectorRecord)
    | Remove(owner: nat, key: nat)
    | Delete(workspaceId: nat, documentId: nat)

  function Apply(records: seq<VectorRecord>, op: StoreOp): seq<VectorRecord> {
    match op
    case Upsert(record) => Put(records, record)
    case Remove(_, key) => Drop(records, key)
    case Delete(workspaceId, documentId) => Without(records, workspaceId, documentId)
  }

  function Replay(log: seq<StoreOp>): seq<VectorRecord> {
    if log == [] then [] else Apply(Replay(log[..|log| - 1]), log[|log| - 1])
  }

  /** The record the log leaves under `id`: the last one written, unless it was
      removed later, alone or with its document. */
  function Latest(log: seq<StoreOp>, id: nat): Option<VectorRecord> {
    if log == [] then None
    else
      var before := Latest(log[..|log| - 1], id);
      match log[|log| - 1]
      case Upsert(record) => if record.id == id then Some(record) else before
      case Remove(_, key) => if key == id then None else before
      case Delete(workspaceId, documentId) =>
        if before.Some? && Belongs(before.value, workspaceId, documentId) then None else before
  }

  /** When `id` last became present: rewriting a present id does not count. */
  function Birth(log: seq<StoreOp>, id: nat): (n: nat)
    ensures n <= |log|
    ensures Latest(log, id).Some? ==> n < |log|
  {
    if log == [] then 0
    else
      var before := log[..|log| - 1];
      if log[|log| - 1].Upsert? && log[|log| - 1].record.id == id && Latest(before, id).None? then |log| - 1
      else Birth(before, id)
  }

  predicate Refines(records: seq<VectorRecord>, log: seq<StoreOp>) {
    && (forall i :: 0 <= i < |records| ==> Latest(log, records[i].id) == Some(records[i]))
    && (forall i, j :: 0 <= i < j < |records| ==> Birth(log, records[i].id) < Birth(log, records[j].id))
  }

  predicate Present(records: seq<VectorRecord>, id: nat) {
    exists k :: 0 <= k < |records| && records[k].id == id
  }

  /** After any run the dict holds exactly the latest surviving records, ordered by birth. */
  lemma {:induction false} StoreRefinesLog(log: seq<StoreOp>)
    ensures Matches(Replay(log), log)
    decreases |log|
  {
    if log != [] {
      var before := log[..|log| - 1];
      StoreRefinesLog(before);
      match log[|log| - 1]
      case Upsert(record) => UpsertRefines(log, record);
      case Remove(_, key) => FilterRefines(log, OtherThan(key));
      case Delete(workspaceId, documentId) => FilterRefines(log, NotOf(workspaceId, documentId));
    }
  }

  ghost predicate Matches(records: seq<VectorRecord>, log: seq<StoreOp>) {
    && Distinct(records) && Refines(records, log)
    && forall id: nat :: Present(records, id) <==> Latest(log, id).Some?
  }

  lemma UpsertRefines(log: seq<StoreOp>, record: VectorRecord)
    requires log != [] && log[|log| - 1] == Upsert(record)
    requires Matches(Replay(log[..|log| - 1]), log[..|log| - 1])
    ensures Matches(Replay(log), log)
  {
    var was := Replay(log[..|log| - 1]);
    PutKeepsDistinct(was, record);
    PutEffect(was, record);
    assert Replay(log) == Put(was, record);
    if k :| 0 <= k < |was| && was[k].id == record.id {
      RewriteRefines(log, record, was, k);
    } else {
      AppendRefines(log, record, was);
    }
  }

  lemma RewriteRefines(log: seq<StoreOp>, record: VectorRecord, was: seq<VectorRecord>, k: nat)
    requires log != [] && log[|log| - 1] == Upsert(record)
    requires Matches(was, log[..|log| - 1]) && k < |was| && was[k].id == record.id
    ensures Matches(was[k := record], log)
  {
    var before, now := log[..|log| - 1], was[k := record];
    assert forall i :: 0 <= i < |now| ==> now[i].id == was[i].id;
    assert Present(was, record.id);
    forall id: nat ensures Present(now, id) <==> Latest(log, id).Some? {
      assert Present(was, id) <==> Latest(before, id).Some?;
      assert Present(now, id) <==> Present(was, id);
    }
  }

  lemma AppendRefines(log: seq<StoreOp>, record: VectorRecord, was: seq<VectorRecord>)
    requires log != [] && log[|log| - 1] == Upsert(record)
    requires Matches(was, log[..|log| - 1]) && !Present(was, record.id)
    ensures Matches(was + [record], log)
  {
    var before, now := log[..|log| - 1], was + [record];
    forall i | 0 <= i < |was|
      ensures Latest(log, now[i].id) == Some(now[i]) && Birth(log, now[i].id) == Birth(before, was[i].id)
    {
      assert now[i] == was[i] && was[i].id != record.id;
    }
    assert Birth(log, record.id) == |before|;
    forall id: nat ensures Present(now, id) <==> Latest(log, id).Some? {
      assert Present(was, id) <==> Latest(before, id).Some?;
      if k :| 0 <= k < |was| && was[k].id == id { assert now[k].id == id; }
      if id == record.id { assert now[|was|].id == id; }
      if k :| 0 <= k < |now| && now[k].id == id { assert k == |was| || was[k].id == id; }
    }
  }

  /** An operation that filters the dict keeps the order of what it leaves. */
  lemma FilterRefines(log: seq<StoreOp>, keep: VectorRecord -> bool)
    requires log != [] && !log[|log| - 1].Upsert?
    requires Matches(Replay(log[..|log| - 1]), log[..|log| - 1])
    requires Apply(Replay(log[..|log| - 1]), log[|log| - 1]) == Filter(Replay(log[..|log| - 1]), keep)
    requires forall r: VectorRecord :: keep(r) <==> Survives(r, log[|log| - 1])
    ensures Matches(Replay(log), log)
  {
    var was := Replay(log[..|log| - 1]);
    assert Replay(log) == Filter(was, keep);
    FilterKeepsDistinct(was, keep);
    FilterKeepsOrder(log, was, keep);
    hide Present, Latest, Refines, Apply, Survives, Distinct;
    forall id: nat ensures Present(Filter(was, keep), id) <==> Latest(log, id).Some? {
      FilterKeepsPresence(log, was, keep, id);
    }
  }

  lemma FilterKeepsOrder(log: seq<StoreOp>, was: seq<VectorRecord>, keep: VectorRecord -> bool)
    requires log != [] && !log[|log| - 1].Upsert? && Refines(was, log[..|log| - 1])
    requires forall r: VectorRecord :: keep(r) <==> Survives(r, log[|log| - 1])
    ensures Refines(Filter(was, keep), log)
  {
    var at, now := Where(was, keep), Filter(was, keep);
    hide Latest, Birth;
    forall i | 0 <= i < |now|
      ensures Latest(log, now[i].id) == Some(now[i])
      ensures Birth(log, now[i].id) == Birth(log[..|log| - 1], was[at[i]].id)
    {
      assert now[i] == was[at[i]] && keep(now[i]);
      LatestAfter(log, now[i].id);
    }
    forall i, j | 0 <= i < j < |now| ensures Birth(log, now[i].id) < Birth(log, now[j].id) {
      assert at[i] < at[j];
    }
  }

  lemma FilterKeepsPresence(
      log: seq<StoreOp>, was: seq<VectorRecord>, keep: VectorRecord -> bool, id: nat)
    requires log != [] && !log[|log| - 1].Upsert? && Refines(was, log[..|log| - 1])
    requires Present(was, id) <==> Latest(log[..|log| - 1], id).Some?
    requires forall r: VectorRecord :: keep(r) <==> Survives(r, log[|log| - 1])
    ensures Present(Filter(was, keep), id) <==> Latest(log, id).Some?
  {
    hide Latest, Birth, Survives;
    LatestAfter(log, id);
    FilterPresence(was, keep, id);
  }

  lemma LatestAfter(log: seq<StoreOp>, id: nat)
    requires log != [] && !log[|log| - 1].Upsert?
    ensures Birth(log, id) == Birth(log[..|log| - 1], id)
    ensures Latest(log, id) == match Latest(log[..|log| - 1], id)
                               case None => None
                               case Some(r) => if Survives(r, log[|log| - 1]) then Some(r) else None
  {
    LatestWasWritten(log[..|log| - 1], id);
  }

  predicate Survives(r: VectorRecord, op: StoreOp) {
    match op
    case Upsert(_) => true
    case Remove(_, key) => r.id != key
    case Delete(workspaceId, documentId) => !Belongs(r, workspaceId, documentId)
  }

  lemma FilterPresence(was: seq<VectorRecord>, keep: VectorRecord -> bool, id: nat)
    ensures Present(Filter(was, keep), id) <==> exists k :: 0 <= k < |was| && was[k].id == id && keep(was[k])
  {
    var at, now := Where(was, keep), Filter(was, keep);
    if k :| 0 <= k < |was| && was[k].id == id && keep(was[k]) {
      var n := WhereComplete(was, keep, k);
      assert now[n].id == id;
    }
    if n :| 0 <= n < |now| && now[n].id == id {
      assert was[at[n]].id == id && keep(was[at[n]]);
    }
  }

  // ----- Search over a log -----

  /** One hit outranks another: higher score, or the same score and born earlier. */
  predicate Outranks(log: seq<StoreOp>, embedding: Vector, a: VectorRecord, b: VectorRecord) {
    var sa, sb := Score(embedding, a.vector), Score(embedding, b.vector);
    sa > sb || (sa == sb && Birth(log, a.id) < Birth(log, b.id))
  }

  /** The ranking lists surviving records of the workspace, each before all it
      outranks; `search` returns its first `limit` entries. */
  lemma {:induction false} SearchRefinesLog(log: seq<StoreOp>, embedding: Vector, workspaceId: nat, limit: nat)
    ensures var ranked := Ranked(Replay(log), embedding, workspaceId);
      && SearchHits(Replay(log), embedding, workspaceId, limit) == Hits(embedding, Take(ranked, limit))
      && (forall i, j :: 0 <= i < j < |ranked| ==> Outranks(log, embedding, ranked[i], ranked[j]))
      && (forall i :: 0 <= i < |ranked| ==>
            Scoped(ranked[i], workspaceId) && Latest(log, ranked[i].id) == Some(ranked[i]))
  {
    StoreRefinesLog(log);
    hide Replay, Latest, Birth, Order, Score, Outranks, Ranked;
    forall i | 0 <= i < |Ranked(Replay(log), embedding, workspaceId)|
      ensures var r := Ranked(Replay(log), embedding, workspaceId)[i];
        Scoped(r, workspaceId) && Latest(log, r.id) == Some(r)
    {
      var k := RankedFrom(Replay(log), embedding, workspaceId, i);
    }
    forall i, j | 0 <= i < j < |Ranked(Replay(log), embedding, workspaceId)|
      ensures Outranks(log, embedding, Ranked(Replay(log), embedding, workspaceId)[i],
                       Ranked(Replay(log), embedding, workspaceId)[j])
    {
      RankedOutranks(log, Replay(log), embedding, workspaceId, i, j);
    }
  }

  lemma RankedFrom(records: seq<VectorRecord>, embedding: Vector, workspaceId: nat, i: nat)
      returns (k: nat)
    requires i < |Ranked(records, embedding, workspaceId)|
    ensures k < |records| && Ranked(records, embedding, workspaceId)[i] == records[k] && Scoped(records[k], workspaceId)
  {
    hide Order, Score;
    var n := Order(Scores(embedding, InWorkspace(records, workspaceId)))[i];
    k := Where(records, OwnedBy(workspaceId))[n];
    assert OwnedBy(workspaceId)(records[k]);
  }

  lemma RankedOutranks(
      log: seq<StoreOp>, records: seq<VectorRecord>, embedding: Vector, workspaceId: nat, i: nat, j: nat)
    requires Refines(records, log) && i < j < |Ranked(records, embedding, workspaceId)|
    ensures Outranks(log, embedding, Ranked(records, embedding, workspaceId)[i],
                     Ranked(records, embedding, workspaceId)[j])
  {
    hide Order, Score, Latest, Birth;
    var keys := Scores(embedding, InWorkspace(records, workspaceId));
    var order, at := Order(keys), Where(records, OwnedBy(workspaceId));
    OrderSorts(keys);
    assert Precedes(keys, order[i], order[j]);
    if order[i] < order[j] { assert at[order[i]] < at[order[j]]; }
  }

  /** The ranking misses no surviving record of the workspace. */
  lemma RankingIsComplete(log: seq<StoreOp>, embedding: Vector, workspaceId: nat, id: nat) returns (i: nat)
    requires Latest(log, id).Some? && Scoped(Latest(log, id).value, workspaceId)
    ensures i < |Ranked(Replay(log), embedding, workspaceId)|
    ensures Ranked(Replay(log), embedding, workspaceId)[i] == Latest(log, id).value
  {
    StoreRefinesLog(log);
    var records := Replay(log);
    assert Present(records, id);
    var k :| 0 <= k < |records| && records[k].id == id;
    i := RankedContains(records, embedding, workspaceId, k);
  }

  lemma RankedContains(records: seq<VectorRecord>, embedding: Vector, workspaceId: nat, k: nat) returns (i: nat)
    requires k < |records| && Scoped(records[k], workspaceId)
    ensures i < |Ranked(records, embedding, workspaceId)|
    ensures Ranked(records, embedding, workspaceId)[i] == records[k]
  {
    var keys := Scores(embedding, InWorkspace(records, workspaceId));
    OrderSorts(keys);
    var n := WhereComplete(records, OwnedBy(workspaceId), k);
    assert n in Order(keys);
    i :| 0 <= i < |Order(keys)| && Order(keys)[i] == n;
  }

  // ----- Tenant isolation -----

  predicate Concerns(op: StoreOp, workspaceId: nat) {
    match op
    case Upsert(record) => Scoped(record, workspaceId)
    case Remove(owner, _) => owner == workspaceId
    case Delete(w, _) => w == workspaceId
  }

  function OnlyFor(log: seq<StoreOp>, workspaceId: nat): seq<StoreOp> {
    Filter(log, ConcernsWorkspace(workspaceId))
  }

  /** The operation writes or removes the id on behalf of the workspace. */
  predicate Touches(op: StoreOp, id: nat, workspaceId: nat) {
    match op
    case Upsert(record) => record.id == id && Scoped(record, workspaceId)
    case Remove(owner, key) => key == id && owner == workspaceId
    case Delete(_, _) => false
  }

  /** No id is ever written or removed by two workspaces. */
  ghost predicate DisjointIds(log: seq<StoreOp>) {
    forall i, j, id: nat, w: nat, v: nat ::
      0 <= i < |log| && 0 <= j < |log| && Touches(log[i], id, w) && Touches(log[j], id, v) ==> w == v
  }

  lemma {:induction false} LatestWasWritten(log: seq<StoreOp>, id: nat)
    ensures Latest(log, id).Some? ==>
      exists i :: 0 <= i < |log| && log[i] == Upsert(Latest(log, id).value) && Latest(log, id).value.id == id
    decreases |log|
  {
    if log != [] {
      var before := log[..|log| - 1];
      LatestWasWritten(before, id);
      if Latest(before, id).Some? {
        var i :| 0 <= i < |before| && before[i] == Upsert(Latest(before, id).value)
                 && Latest(before, id).value.id == id;
        assert log[i] == before[i];
      }
      assert log[|log| - 1] == log[|log| - 1];
    }
  }

  lemma WritersAgree(before: seq<StoreOp>, op: StoreOp, id: nat, owner: nat, workspaceId: nat)
    requires DisjointIds(before + [op]) && Matches(Replay(before), before) && Touches(op, id, owner)
    ensures forall k :: 0 <= k < |Replay(before)| && Replay(before)[k].id == id ==>
              (Scoped(Replay(before)[k], workspaceId) <==> owner == workspaceId)
  {
    hide Replay, Belongs, Birth;
    var was, log := Replay(before), before + [op];
    forall k | 0 <= k < |was| && was[k].id == id
      ensures Scoped(was[k], workspaceId) <==> owner == workspaceId
    {
      LatestWasWritten(before, id);
      var i :| 0 <= i < |before| && before[i] == Upsert(was[k]);
      assert log[i] == before[i] && log[|before|] == op;
      assert Touches(log[i], id, was[k].payload.workspaceId);
    }
  }

  lemma OnlyForStep(before: seq<StoreOp>, op: StoreOp, workspaceId: nat)
    ensures Replay(OnlyFor(before + [op], workspaceId))
         == if Concerns(op, workspaceId) then Apply(Replay(OnlyFor(before, workspaceId)), op)
            else Replay(OnlyFor(before, workspaceId))
  {
    hide Concerns, Apply;
    var mine := OnlyFor(before, workspaceId);
    FilterConcat(before, [op], ConcernsWorkspace(workspaceId));
    FilterOne(op, ConcernsWorkspace(workspaceId));
    if Concerns(op, workspaceId) {
      assert OnlyFor(before + [op], workspaceId) == mine + [op];
      assert (mine + [op])[..|mine + [op]| - 1] == mine;
    } else {
      assert OnlyFor(before + [op], workspaceId) == mine;
    }
  }

  /** A workspace sees exactly the store its own operations would have built. */
  lemma {:induction false} WorkspacesAreIsolated(log: seq<StoreOp>, workspaceId: nat)
    requires DisjointIds(log)
    ensures InWorkspace(Replay(log), workspaceId) == Replay(OnlyFor(log, workspaceId))
    decreases |log|
  {
    hide InWorkspace, OnlyFor, Put, Without, Latest, Birth;
    if log == [] {
      EmptyWorkspace(workspaceId);
    } else {
      var before, op := log[..|log| - 1], log[|log| - 1];
      assert log == before + [op];
      WorkspacesAreIsolated(before, workspaceId);
      StoreRefinesLog(before);
      OnlyForStep(before, op, workspaceId);
      match op
      case Upsert(record) =>
        WritersAgree(before, op, record.id, record.payload.workspaceId, workspaceId);
        PutScoped(Replay(before), record, workspaceId);
      case Remove(owner, key) =>
        WritersAgree(before, op, key, owner, workspaceId);
        DropScoped(Replay(before), owner, key, workspaceId);
      case Delete(w, d) =>
        DeleteScoped(Replay(before), w, d, workspaceId);
    }
  }

  lemma EmptyWorkspace(workspaceId: nat)
    ensures InWorkspace([], workspaceId) == [] && OnlyFor([], workspaceId) == []
  {
  }

  lemma {:induction false} PutScoped(records: seq<VectorRecord>, record: VectorRecord, workspaceId: nat)
    requires Distinct(records)
    requires forall k :: 0 <= k < |records| && records[k].id == record.id ==>
               (Scoped(records[k], workspaceId) <==> Scoped(record, workspaceId))
    ensures InWorkspace(Put(records, record), workspaceId)
         == if Scoped(record, workspaceId) then Put(InWorkspace(records, workspaceId), record)
            else InWorkspace(records, workspaceId)
    decreases |records|
  {
    var own := OwnedBy(workspaceId);
    if records == [] {
      FilterConcat([], [record], own);
    } else {
      var first, rest := records[0], records[1..];
      FilterFirst(first, rest, own);
      assert records == [first] + rest;
      if first.id == record.id {
        FilterFirst(record, rest, own);
        assert Scoped(first, workspaceId) <==> Scoped(record, workspaceId);
      } else {
        PutScoped(rest, record, workspaceId);
        FilterFirst(first, Put(rest, record), own);
      }
      PutFirst(first, Filter(rest, own), record);
    }
  }

  lemma FilterFirst(first: VectorRecord, rest: seq<VectorRecord>, p: VectorRecord -> bool)
    ensures Filter([first] + rest, p) == if p(first) then [first] + Filter(rest, p) else Filter(rest, p)
  {
    FilterConcat([first], rest, p);
    FilterOne(first, p);
  }

  lemma PutFirst(first: VectorRecord, rest: seq<VectorRecord>, record: VectorRecord)
    ensures Put([first] + rest, record)
         == if first.id == record.id then [record] + rest else [first] + Put(rest, record)
  {
    assert ([first] + rest)[1..] == rest;
  }

  lemma DropScoped(records: seq<VectorRecord>, owner: nat, key: nat, workspaceId: nat)
    requires forall k :: 0 <= k < |records| && records[k].id == key ==>
               (Scoped(records[k], workspaceId) <==> owner == workspaceId)
    ensures InWorkspace(Drop(records, key), workspaceId)
         == if owner == workspaceId then Drop(InWorkspace(records, workspaceId), key)
            else InWorkspace(records, workspaceId)
  {
    FilterCommutes(records, OtherThan(key), OwnedBy(workspaceId));
    if owner != workspaceId {
      var mine, from := InWorkspace(records, workspaceId), Where(records, OwnedBy(workspaceId));
      forall k | 0 <= k < |mine| ensures OtherThan(key)(mine[k]) {
        assert OwnedBy(workspaceId)(mine[k]) && mine[k] == records[from[k]];
      }
      FilterAll(mine, OtherThan(key));
    }
  }

  lemma DeleteScoped(records: seq<VectorRecord>, w: nat, d: nat, workspaceId: nat)
    ensures InWorkspace(Without(records, w, d), workspaceId)
         == if w == workspaceId then Without(InWorkspace(records, workspaceId), w, d)
            else InWorkspace(records, workspaceId)
  {
    var own := OwnedBy(workspaceId);
    var keep := NotOf(w, d);
    var both := (r: VectorRecord) => Scoped(r, workspaceId) && !Belongs(r, w, d);
    FilterSame(Without(records, w, d), own, both);
    FilterTwice(records, keep, both);
    if w == workspaceId {
      FilterSame(InWorkspace(records, workspaceId), keep, both);
      FilterTwice(records, own, both);
    } else {
      FilterSame(records, both, own);
    }
  }

  /** So operations on other workspaces never change a search. */
  lemma SearchIsIsolated(log: seq<StoreOp>, embedding: Vector, workspaceId: nat, limit: nat)
    requires DisjointIds(log)
    ensures SearchHits(Replay(log), embedding, workspaceId, limit)
         == SearchHits(Replay(OnlyFor(log, workspaceId)), embedding, workspaceId, limit)
  {
    WorkspacesAreIsolated(log, workspaceId);
    var own := OwnedBy(workspaceId);
    var mine := InWorkspace(Replay(log), workspaceId);
    assert InWorkspace(mine, workspaceId) == mine by { FilterAll(mine, own); }
  }
}
