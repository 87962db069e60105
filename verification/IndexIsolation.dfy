/** The vector operations a run of the document services performs, and what follows
    from them for the index: tenants never share an id, so a tenant's search depends
    on its own operations only. */
module IndexIsolation {
  import opened Chunker
  import opened IndexAgreement
  import opened Ingestion
  import opened Lists
  import opened Ranking
  import opened Vectors
  import opened VectorStore
  import opened Wrappers

  // ----- The log of a run -----

  function Upserts(batch: seq<VectorRecord>): (log: seq<StoreOp>)
    ensures |log| == |batch| && forall k :: 0 <= k < |log| ==> log[k] == Upsert(batch[k])
  {
    seq(|batch|, k requires 0 <= k < |batch| => Upsert(batch[k]))
  }

  function Removes(owner: nat, keys: seq<nat>): (log: seq<StoreOp>)
    ensures |log| == |keys| && forall k :: 0 <= k < |log| ==> log[k] == Remove(owner, keys[k])
  {
    seq(|keys|, k requires 0 <= k < |keys| => Remove(owner, keys[k]))
  }

  /** The vector operations of one ingestion. */
  function IngestLog(
      p: Providers, s: State, documentId: nat, data: Bytes, settings: Settings, fault: Fault): seq<StoreOp>
    requires documentId in s.tables.documents
  {
    var document := s.tables.documents[documentId];
    match Extracted(p, document.filename, data, settings, fault)
    case Err(_) => []
    case Ok(chunks) =>
      if Strikes(fault, AtRowDelete) then []
      else if fault.Fault? && fault.stage.AtVectorDelete? then
        Removes(document.workspaceId,
                Take(DocumentKeys(s.records, document.workspaceId, documentId), fault.stage.done))
      else
        [StoreOp.Delete(document.workspaceId, documentId)] + Upserts(Written(p, s, documentId, chunks, settings, fault))
  }

  function StepLog(p: Providers, s: State, op: Op): seq<StoreOp> {
    match op
    case Create(workspaceId, isMember, filename, data, settings, fault) =>
      if isMember && WithChecksum(s, workspaceId, p.digest(data)) == {} && settings.ingestEager
      then IngestLog(p, Registered(s, p, workspaceId, filename, data), s.nextId, data, settings, fault) else []
    case Delete(workspaceId, isMember, documentId) =>
      if isMember && Visible(s, workspaceId, documentId) then [StoreOp.Delete(workspaceId, documentId)] else []
    case Reprocess(workspaceId, isMember, documentId, settings, fault) =>
      if isMember && Visible(s, workspaceId, documentId) && documentId in s.files
      then IngestLog(p, s, documentId, s.files[documentId], settings, fault) else []
    case Job(documentId, settings, fault) =>
      if documentId in s.tables.documents && !s.tables.documents[documentId].deleted && documentId in s.files
      then IngestLog(p, s, documentId, s.files[documentId], settings, fault) else []
  }

  function LogOf(p: Providers, ops: seq<Op>): seq<StoreOp> {
    if ops == [] then []
    else
      var before := ops[..|ops| - 1];
      LogOf(p, before) + StepLog(p, Ingestion.Run(p, before), ops[|ops| - 1])
  }

  // ----- Replaying it -----

  lemma ReplayMore(log: seq<StoreOp>, op: StoreOp)
    ensures Replay(log + [op]) == Apply(Replay(log), op)
  {
    assert (log + [op])[..|log|] == log;
  }

  lemma {:induction false} ReplayUpserts(log: seq<StoreOp>, batch: seq<VectorRecord>)
    ensures Replay(log + Upserts(batch)) == PutAll(Replay(log), batch)
    decreases |batch|
  {
    hide Put, Replay;
    if batch == [] {
      assert log + Upserts(batch) == log;
    } else {
      var before, last := batch[..|batch| - 1], batch[|batch| - 1];
      ReplayUpserts(log, before);
      assert log + Upserts(batch) == (log + Upserts(before)) + [Upsert(last)];
      ReplayMore(log + Upserts(before), Upsert(last));
    }
  }

  lemma {:induction false} ReplayRemoves(log: seq<StoreOp>, owner: nat, keys: seq<nat>)
    ensures Replay(log + Removes(owner, keys)) == DropAll(Replay(log), keys)
    decreases |keys|
  {
    hide Drop, Replay;
    if keys == [] {
      assert log + Removes(owner, keys) == log;
    } else {
      var before, last := keys[..|keys| - 1], keys[|keys| - 1];
      ReplayRemoves(log, owner, before);
      assert log + Removes(owner, keys) == (log + Removes(owner, before)) + [Remove(owner, last)];
      ReplayMore(log + Removes(owner, before), Remove(owner, last));
    }
  }

  /** Every id the log touches has been handed out. */
  ghost predicate Below(log: seq<StoreOp>, bound: nat) {
    forall i, id: nat, w: nat :: 0 <= i < |log| && Touches(log[i], id, w) ==> id < bound
  }

  /** The log leads to the records, and no id is shared by two workspaces. */
  ghost predicate Explains(log: seq<StoreOp>, s: State) {
    Replay(log) == s.records && DisjointIds(log) && Below(log, s.nextId)
  }

  /** The operations touch, for `w` only, new ids or those of records `w` has. */
  ghost predicate Owned(more: seq<StoreOp>, records: seq<VectorRecord>, w: nat, from: nat) {
    forall i, id: nat, v: nat :: 0 <= i < |more| && Touches(more[i], id, v) ==>
      v == w && (id >= from || exists k :: 0 <= k < |records| && records[k].id == id && Scoped(records[k], w))
  }

  /** Whoever touched the id of a present record is its owner. */
  lemma OwnerTouched(log: seq<StoreOp>, i: nat, id: nat, v: nat, k: nat)
    requires DisjointIds(log) && i < |log| && Touches(log[i], id, v)
    requires k < |Replay(log)| && Replay(log)[k].id == id
    ensures v == Replay(log)[k].payload.workspaceId
  {
    StoreRefinesLog(log);
    hide Replay, Birth;
    LatestWasWritten(log, id);
    var j :| 0 <= j < |log| && log[j] == Upsert(Replay(log)[k]);
    assert Touches(log[j], id, Replay(log)[k].payload.workspaceId);
  }

  lemma MoreStaysDisjoint(log: seq<StoreOp>, more: seq<StoreOp>, w: nat, from: nat)
    requires DisjointIds(log) && Below(log, from) && Owned(more, Replay(log), w, from)
    ensures DisjointIds(log + more)
  {
    hide Replay, Touches;
    var all := log + more;
    forall i, j, id: nat, v: nat, u: nat |
      0 <= i < |all| && 0 <= j < |all| && Touches(all[i], id, v) && Touches(all[j], id, u)
      ensures v == u
    {
      if i < |log| && j >= |log| {
        OldMeetsNew(log, more, w, from, i, j - |log|, id, v, u);
      } else if i >= |log| && j < |log| {
        OldMeetsNew(log, more, w, from, j, i - |log|, id, u, v);
      } else if i >= |log| {
        assert Touches(more[i - |log|], id, v) && Touches(more[j - |log|], id, u);
      } else {
        assert Touches(log[i], id, v) && Touches(log[j], id, u);
      }
    }
  }

  lemma OldMeetsNew(
      log: seq<StoreOp>, more: seq<StoreOp>, w: nat, from: nat, i: nat, j: nat, id: nat, v: nat, u: nat)
    requires DisjointIds(log) && Below(log, from) && Owned(more, Replay(log), w, from)
    requires i < |log| && j < |more| && Touches(log[i], id, v) && Touches(more[j], id, u)
    ensures v == u
  {
    hide Replay, Touches, DisjointIds;
    var k :| 0 <= k < |Replay(log)| && Replay(log)[k].id == id && Scoped(Replay(log)[k], w);
    OwnerTouched(log, i, id, v, k);
  }

  lemma BelowMore(log: seq<StoreOp>, more: seq<StoreOp>, from: nat, to: nat)
    requires Below(log, from) && from <= to && Below(more, to)
    ensures Below(log + more, to)
  {
    hide Touches;
    var all := log + more;
    forall i, id: nat, w: nat | 0 <= i < |all| && Touches(all[i], id, w) ensures id < to {
      if i < |log| { assert Touches(log[i], id, w); } else { assert Touches(more[i - |log|], id, w); }
    }
  }

  // ----- Ingestions -----

  lemma RemovesAreOwned(s: State, w: nat, documentId: nat, done: nat)
    requires RecordsOk(s)
    ensures var log := Removes(w, Take(DocumentKeys(s.records, w, documentId), done));
      Owned(log, s.records, w, s.nextId) && Below(log, s.nextId)
  {
    var log := Removes(w, Take(DocumentKeys(s.records, w, documentId), done));
    var own, at := RecordsOf(s.records, w, documentId), Where(s.records, PartOf(w, documentId));
    forall i, id: nat, v: nat | 0 <= i < |log| && Touches(log[i], id, v)
      ensures v == w && id < s.nextId && s.records[at[i]].id == id && Scoped(s.records[at[i]], w)
    {
      assert own[i].id == id && PartOf(w, documentId)(own[i]);
      assert RecordOk(s, s.records[at[i]]);
    }
  }

  lemma WritesAreOwned(
      p: Providers, s: State, documentId: nat, chunks: seq<TextChunk>, settings: Settings, fault: Fault)
    requires documentId in s.tables.documents
    ensures var w := s.tables.documents[documentId].workspaceId;
      var log := [StoreOp.Delete(w, documentId)] + Upserts(Written(p, s, documentId, chunks, settings, fault));
      Owned(log, s.records, w, s.nextId) && Below(log, s.nextId + |chunks|)
  {
    WrittenAreNew(p, s, documentId, chunks, settings, fault);
    hide Written;
    var w := s.tables.documents[documentId].workspaceId;
    var written := Written(p, s, documentId, chunks, settings, fault);
    var log := [StoreOp.Delete(w, documentId)] + Upserts(written);
    forall i, id: nat, v: nat | 0 <= i < |log| && Touches(log[i], id, v)
      ensures v == w && s.nextId <= id < s.nextId + |chunks|
    {
      assert log[i] == Upsert(written[i - 1]);
      assert NewRecord(written[i - 1], w, documentId, s.nextId, s.nextId + |chunks|);
    }
  }

  lemma IndexLogged(
      p: Providers, s: State, log: seq<StoreOp>, documentId: nat, chunks: seq<TextChunk>, settings: Settings,
      fault: Fault)
    requires Replay(log) == s.records && documentId in s.tables.documents
    ensures var w := s.tables.documents[documentId].workspaceId;
      var more := [StoreOp.Delete(w, documentId)] + Upserts(Written(p, s, documentId, chunks, settings, fault));
      var attempt := Index(p, s, documentId, chunks, settings, fault);
      Replay(log + more) == attempt.records && attempt.nextId == s.nextId + |chunks|
  {
    IndexWrites(p, s, documentId, chunks, settings, fault);
    hide Written, Index;
    var w := s.tables.documents[documentId].workspaceId;
    var written := Written(p, s, documentId, chunks, settings, fault);
    var delete := [StoreOp.Delete(w, documentId)];
    ReplayMore(log, StoreOp.Delete(w, documentId));
    ReplayUpserts(log + delete, written);
    Associate(log, delete, Upserts(written));
    hide Replay, Put, PutAll, Without, Upserts;
  }

  lemma Associate(a: seq<StoreOp>, b: seq<StoreOp>, c: seq<StoreOp>)
    ensures (a + b) + c == a + (b + c)
  {
  }

  /** The log of an ingestion explains what it does to the index, wherever it fails. */
  lemma {:induction false} IngestLogged(
      p: Providers, s: State, log: seq<StoreOp>, documentId: nat, data: Bytes, settings: Settings, fault: Fault)
    requires RecordsOk(s) && documentId in s.tables.documents && Explains(log, s)
    ensures Explains(log + IngestLog(p, s, documentId, data, settings, fault),
                     Ingest(p, s, documentId, data, settings, fault))
  {
    hide Extracted, Index, DropAll, DocumentKeys, Written, Replay, RecordsOk, Owned, Below, DisjointIds;
    var document := s.tables.documents[documentId];
    var more := IngestLog(p, s, documentId, data, settings, fault);
    match Extracted(p, document.filename, data, settings, fault)
    case Err(_) =>
      assert log + [] == log;
    case Ok(chunks) =>
      if Strikes(fault, AtRowDelete) {
        assert log + [] == log;
      } else if fault.Fault? && fault.stage.AtVectorDelete? {
        RemovesAreOwned(s, document.workspaceId, documentId, fault.stage.done);
        MoreStaysDisjoint(log, more, document.workspaceId, s.nextId);
        BelowMore(log, more, s.nextId, s.nextId);
        ReplayRemoves(log, document.workspaceId,
                      Take(DocumentKeys(s.records, document.workspaceId, documentId), fault.stage.done));
      } else {
        WritesAreOwned(p, s, documentId, chunks, settings, fault);
        MoreStaysDisjoint(log, more, document.workspaceId, s.nextId);
        BelowMore(log, more, s.nextId, s.nextId + |chunks|);
        IndexLogged(p, s, log, documentId, chunks, settings, fault);
      }
  }

  // ----- Runs -----

  lemma DeleteLogged(log: seq<StoreOp>, s: State, workspaceId: nat, documentId: nat)
    requires Explains(log, s) && Visible(s, workspaceId, documentId)
    ensures Explains(log + [StoreOp.Delete(workspaceId, documentId)], Deleted(s, documentId))
  {
    var more := [StoreOp.Delete(workspaceId, documentId)];
    assert Owned(more, Replay(log), workspaceId, s.nextId) && Below(more, s.nextId);
    hide Owned, Below, DisjointIds, Replay;
    MoreStaysDisjoint(log, more, workspaceId, s.nextId);
    BelowMore(log, more, s.nextId, s.nextId);
    ReplayMore(log, StoreOp.Delete(workspaceId, documentId));
  }

  lemma CreateLogged(
      p: Providers, s: State, h: History, log: seq<StoreOp>, workspaceId: nat, isMember: bool, filename: string,
      data: Bytes, settings: Settings, fault: Fault)
    requires Inv(p, s, h) && Explains(log, s)
    ensures var op := Create(workspaceId, isMember, filename, data, settings, fault);
      Explains(log + StepLog(p, s, op), Ingestion.Step(p, s, op).0)
  {
    NextIdIsNew(p, s, h);
    RegisterKeepsRecords(p, s, workspaceId, filename, data);
    LiveIsHeld(s, workspaceId, p.digest(data));
    var registered := Registered(s, p, workspaceId, filename, data);
    assert Explains(log, registered);
    assert log + [] == log;
    RegisteredHas(p, s, workspaceId, filename, data);
    hide Inv, Ingest, IngestLog, RecordsOk, Explains, Registered;
    IngestLogged(p, registered, log, s.nextId, data, settings, fault);
  }

  lemma RegisteredHas(p: Providers, s: State, workspaceId: nat, filename: string, data: Bytes)
    ensures s.nextId in Registered(s, p, workspaceId, filename, data).tables.documents
  {
  }

  lemma StepLogged(p: Providers, s: State, h: History, log: seq<StoreOp>, op: Op)
    requires Inv(p, s, h) && Explains(log, s)
    ensures Explains(log + StepLog(p, s, op), Ingestion.Step(p, s, op).0)
  {
    InvRecords(p, s, h);
    assert log + [] == log;
    hide Inv, Ingest, IngestLog, RecordsOk, Explains;
    match op
    case Create(workspaceId, isMember, filename, data, settings, fault) =>
      CreateLogged(p, s, h, log, workspaceId, isMember, filename, data, settings, fault);
    case Delete(workspaceId, isMember, documentId) =>
      if isMember && Visible(s, workspaceId, documentId) {
        DeleteLogged(log, s, workspaceId, documentId);
      }
    case Reprocess(workspaceId, isMember, documentId, settings, fault) =>
      if isMember && Visible(s, workspaceId, documentId) && documentId in s.files {
        IngestLogged(p, s, log, documentId, s.files[documentId], settings, fault);
      }
    case Job(documentId, settings, fault) =>
      if documentId in s.tables.documents && !s.tables.documents[documentId].deleted && documentId in s.files {
        IngestLogged(p, s, log, documentId, s.files[documentId], settings, fault);
      }
  }

  /** The index after any run is what its vector operations lead to, and no two
      workspaces ever touch the same id. */
  lemma {:induction false} RunLogged(p: Providers, ops: seq<Op>)
    ensures Explains(LogOf(p, ops), Ingestion.Run(p, ops))
    decreases |ops|
  {
    hide Inv, Ingestion.Step, StepLog, Explains, HistoryOf;
    if ops == [] {
      StartLogged();
    } else {
      var before := ops[..|ops| - 1];
      RunLogged(p, before);
      RunKeepsInv(p, before);
      StepLogged(p, Ingestion.Run(p, before), HistoryOf(p, before), LogOf(p, before), ops[|ops| - 1]);
    }
  }

  lemma StartLogged()
    ensures Explains([], Start())
  {
  }

  /** After any run, a workspace's part of the index, and so its searches, are those
      its own vector operations alone would have led to. */
  lemma {:induction false} TenantsAreIsolated(
      p: Providers, ops: seq<Op>, embedding: Vector, workspaceId: nat, limit: nat)
    ensures InWorkspace(Ingestion.Run(p, ops).records, workspaceId) == Replay(OnlyFor(LogOf(p, ops), workspaceId))
    ensures SearchHits(Ingestion.Run(p, ops).records, embedding, workspaceId, limit)
         == SearchHits(Replay(OnlyFor(LogOf(p, ops), workspaceId)), embedding, workspaceId, limit)
  {
    hide Ingestion.Run, LogOf, InWorkspace, SearchHits, Replay, OnlyFor, DisjointIds;
    RunLogged(p, ops);
    WorkspacesAreIsolated(LogOf(p, ops), workspaceId);
    SearchIsIsolated(LogOf(p, ops), embedding, workspaceId, limit);
  }
}
