/** What the transactional tables and the vector index still agree on after any run
    of uploads, reprocessings, background jobs and deletions, with a failure
    anywhere inside any ingestion. */
module IndexAgreement {
  import opened Chunker
  import opened Ingestion
  import opened Lists
  import opened Ranking
  import opened Vectors
  import opened VectorStore
  import opened Wrappers

  // ----- The invariant -----

  /** A record names a live document of its own workspace. */
  predicate RecordOk(s: State, r: VectorRecord) {
    && r.id < s.nextId && r.payload.chunkId == r.id
    && Visible(s, r.payload.workspaceId, r.payload.documentId)
  }

  predicate RecordsOk(s: State) {
    Distinct(s.records) && forall k :: 0 <= k < |s.records| ==> RecordOk(s, s.records[k])
  }

  predicate RowsOk(s: State) {
    && (forall k :: 0 <= k < |s.tables.chunks| ==>
          s.tables.chunks[k].id < s.nextId && s.tables.chunks[k].documentId in s.tables.documents)
    && (forall j, k :: 0 <= j < k < |s.tables.chunks| ==> s.tables.chunks[j].id != s.tables.chunks[k].id)
  }

  predicate Describes(r: VectorRecord, row: ChunkRow) {
    && r.payload.documentId == row.documentId && r.payload.ordinal == row.ordinal
    && r.payload.text == row.text && r.payload.page == row.page && r.payload.section == row.section
  }

  /** A record and a row with the same id describe the same chunk. */
  predicate Consistent(records: seq<VectorRecord>, chunks: seq<ChunkRow>) {
    forall i, j :: 0 <= i < |records| && 0 <= j < |chunks| && records[i].id == chunks[j].id ==>
      Describes(records[i], chunks[j])
  }

  predicate Numbered(rows: seq<ChunkRow>) { forall k :: 0 <= k < |rows| ==> rows[k].ordinal == k }

  /** For every document whose ingestion ever succeeded, the batch size its last
      success was run with. */
  type History = map<nat, int>

  /** What the status of a document promises. For an indexed live document the
      vector records are exactly those of its chunk rows, in row order, or none if
      the batch size was negative. */
  predicate StatusOk(
    p: Providers, document: Document, rows: seq<ChunkRow>, records: seq<VectorRecord>, ingested: bool, batchSize: int)
  {
    match document.status
    case Queued => rows == [] && records == [] && document.chunkCount == 0 && document.error.None?
    case Processing => false
    case Failed => document.chunkCount == 0 && document.error.Some?
    case Indexed =>
      && ingested && document.chunkCount == |rows| && document.error.None?
      && (!document.deleted ==> records == Embedded(rows, document.workspaceId, p.embed, batchSize))
  }

  function BatchOf(h: History, d: nat): int { if d in h then h[d] else 0 }

  /** A document has chunk rows exactly when an ingestion of it ever succeeded. */
  predicate DocumentOk(p: Providers, s: State, h: History, d: nat)
    requires d in s.tables.documents
  {
    var document, rows := s.tables.documents[d], RowsOf(s.tables.chunks, d);
    && d < s.nextId && d in s.files && document.checksum == p.digest(s.files[d])
    && Numbered(rows) && (rows != [] <==> d in h)
    && StatusOk(p, document, rows, RecordsOf(s.records, document.workspaceId, d), d in h, BatchOf(h, d))
  }

  /** The unique constraint on (workspace, checksum), deleted documents included. */
  predicate ChecksumsUnique(s: State) {
    forall c, d :: c in s.tables.documents && d in s.tables.documents ==>
      HasChecksum(s.tables.documents[c], s.tables.documents[d].workspaceId, s.tables.documents[d].checksum) ==> c == d
  }

  ghost predicate Inv(p: Providers, s: State, h: History) {
    && RecordsOk(s) && RowsOk(s) && Consistent(s.records, s.tables.chunks) && ChecksumsUnique(s)
    && (forall d :: d in s.tables.documents ==> DocumentOk(p, s, h, d))
    && (forall d :: d in s.files || d in h ==> d in s.tables.documents)
  }

  // ----- How ingestion changes the records -----

  /** A record written by the current ingestion of the document. */
  predicate NewRecord(r: VectorRecord, workspaceId: nat, documentId: nat, from: nat, to: nat) {
    from <= r.id < to && r.payload.chunkId == r.id && Belongs(r, workspaceId, documentId)
  }

  /** Some records of the document are dropped, new ones of it are appended. */
  ghost predicate Evolves(
      was: seq<VectorRecord>, now: seq<VectorRecord>, workspaceId: nat, documentId: nat, from: nat, to: nat)
  {
    && Distinct(now)
    && (forall k :: 0 <= k < |now| ==>
          now[k] in was || NewRecord(now[k], workspaceId, documentId, from, to))
    && (forall w: nat, d: nat :: d != documentId ==> RecordsOf(now, w, d) == RecordsOf(was, w, d))
  }

  lemma {:induction false} KeptAndAdded(
      was: seq<VectorRecord>, keep: VectorRecord -> bool, added: seq<VectorRecord>,
      workspaceId: nat, documentId: nat, from: nat, to: nat)
    requires Distinct(was) && Distinct(added)
    requires forall k :: 0 <= k < |was| ==> was[k].id < from
    requires forall k :: 0 <= k < |was| && was[k].payload.documentId != documentId ==> keep(was[k])
    requires forall k :: 0 <= k < |added| ==> NewRecord(added[k], workspaceId, documentId, from, to)
    ensures Evolves(was, Filter(was, keep) + added, workspaceId, documentId, from, to)
  {
    var kept := Filter(was, keep);
    var now, at := kept + added, Where(was, keep);
    FilterKeepsDistinct(was, keep);
    forall k | 0 <= k < |now|
      ensures now[k] in was || NewRecord(now[k], workspaceId, documentId, from, to)
    {
      if k < |kept| { assert now[k] == was[at[k]]; }
    }
    forall i, j | 0 <= i < j < |now| ensures now[i].id != now[j].id {
      if i < |kept| { assert now[i] == was[at[i]]; }
      if j < |kept| { assert now[j] == was[at[j]] && kept[i].id != kept[j].id; }
      if i >= |kept| { assert now[i] == added[i - |kept|] && now[j] == added[j - |kept|]; }
    }
    forall w: nat, d: nat | d != documentId ensures RecordsOf(now, w, d) == RecordsOf(was, w, d) {
      OtherDocuments(was, keep, added, documentId, w, d);
    }
  }

  lemma {:induction false} OtherDocuments(
      was: seq<VectorRecord>, keep: VectorRecord -> bool, added: seq<VectorRecord>, documentId: nat, w: nat, d: nat)
    requires d != documentId
    requires forall k :: 0 <= k < |was| && was[k].payload.documentId != documentId ==> keep(was[k])
    requires forall k :: 0 <= k < |added| ==> added[k].payload.documentId == documentId
    ensures RecordsOf(Filter(was, keep) + added, w, d) == RecordsOf(was, w, d)
  {
    FilterConcat(Filter(was, keep), added, PartOf(w, d));
    FilterNone(added, PartOf(w, d));
    FilterTwice(was, keep, PartOf(w, d));
    assert RecordsOf(was, w, d) + [] == RecordsOf(was, w, d);
  }

  /** Writing records with new ids appends them. */
  lemma {:induction false} PutAllAppends(records: seq<VectorRecord>, batch: seq<VectorRecord>, from: nat)
    requires Distinct(records) && Distinct(batch)
    requires forall k :: 0 <= k < |records| ==> records[k].id < from
    requires forall k :: 0 <= k < |batch| ==> batch[k].id >= from
    ensures PutAll(records, batch) == records + batch
    decreases |batch|
  {
    if batch == [] {
      assert records + batch == records;
    } else {
      var n := |batch| - 1;
      PutAllAppends(records, batch[..n], from);
      var now := records + batch[..n];
      assert Distinct(now);
      assert forall k :: 0 <= k < |now| ==> now[k].id != batch[n].id;
      PutEffect(now, batch[n]);
      assert now + [batch[n]] == records + batch;
    }
  }

  /** The records of new rows. */
  lemma RecordsAreNew(
      chunks: seq<TextChunk>, workspaceId: nat, documentId: nat, from: nat, embed: string -> Vector)
    ensures var records := RecordsFor(NewRows(chunks, documentId, from), workspaceId, embed);
      && Distinct(records)
      && forall k :: 0 <= k < |records| ==>
           records[k].id == from + k
           && NewRecord(records[k], workspaceId, documentId, from, from + |chunks|)
  {
  }

  /** The records after an attempt are some old ones followed by some new ones. */
  ghost predicate KeepsAndAdds(s: State, attempt: Attempt, documentId: nat,
                               keep: VectorRecord -> bool, added: seq<VectorRecord>)
    requires documentId in s.tables.documents
  {
    var workspaceId := s.tables.documents[documentId].workspaceId;
    && attempt.records == Filter(s.records, keep) + added
    && s.nextId <= attempt.nextId
    && Distinct(added)
    && (forall k :: 0 <= k < |added| ==>
          NewRecord(added[k], workspaceId, documentId, s.nextId, attempt.nextId))
    && (forall k :: 0 <= k < |s.records| && s.records[k].payload.documentId != documentId ==> keep(s.records[k]))
  }

  lemma KeepAll(records: seq<VectorRecord>)
    ensures Filter(records, (r: VectorRecord) => true) + [] == records
  {
    FilterAll(records, (r: VectorRecord) => true);
  }

  /** How many of `total` new records an ingestion that got past the deletions
      writes: none before the upsert, the first few if the upsert is interrupted. */
  function Upserted(total: nat, batchSize: int, fault: Fault): nat {
    if batchSize <= 0 || Strikes(fault, AtFlush) || Strikes(fault, AtEnsureReady) then 0
    else if fault.Fault? && fault.stage.AtEmbed? && fault.stage.batch * batchSize < total then 0
    else if fault.Fault? && fault.stage.AtUpsert? && fault.stage.done < total then fault.stage.done
    else total
  }

  function Written(p: Providers, s: State, documentId: nat, chunks: seq<TextChunk>, settings: Settings, fault: Fault)
    : seq<VectorRecord>
    requires documentId in s.tables.documents
  {
    var rows := NewRows(chunks, documentId, s.nextId);
    Take(RecordsFor(rows, s.tables.documents[documentId].workspaceId, p.embed),
         Upserted(|rows|, settings.batchSize, fault))
  }

  /** There is a batch `b` exactly when `b` full batches leave some item. */
  lemma {:induction false} CutLength(items: seq<string>, size: nat, b: nat)
    requires size > 0
    ensures b < |Cut(items, size)| <==> b * size < |items|
    decreases |items|
  {
    if |items| > size && b > 0 {
      CutLength(items[size..], size, b - 1);
      assert b * size == (b - 1) * size + size;
    } else if b > 0 {
      assert b * size >= size;
    }
  }

  lemma IndexWrites(
      p: Providers, s: State, documentId: nat, chunks: seq<TextChunk>, settings: Settings, fault: Fault)
    requires documentId in s.tables.documents
    ensures var attempt := Index(p, s, documentId, chunks, settings, fault);
      && attempt.nextId == s.nextId + |chunks|
      && attempt.records == PutAll(Without(s.records, s.tables.documents[documentId].workspaceId, documentId),
                                   Written(p, s, documentId, chunks, settings, fault))
  {
    var rows := NewRows(chunks, documentId, s.nextId);
    if settings.batchSize > 0 && fault.Fault? && fault.stage.AtEmbed? {
      CutLength(Texts(rows), settings.batchSize, fault.stage.batch);
    }
    TakeEnds(RecordsFor(rows, s.tables.documents[documentId].workspaceId, p.embed));
    hide Without, Cut, Take, NewRows, RecordsFor, Texts, Filter;
  }

  lemma TakeEnds<T>(xs: seq<T>)
    ensures Take(xs, 0) == [] && forall n: nat :: n >= |xs| ==> Take(xs, n) == xs
  {
  }

  lemma WrittenAreNew(
      p: Providers, s: State, documentId: nat, chunks: seq<TextChunk>, settings: Settings, fault: Fault)
    requires documentId in s.tables.documents
    ensures var written := Written(p, s, documentId, chunks, settings, fault);
      && Distinct(written)
      && forall k :: 0 <= k < |written| ==>
           NewRecord(written[k], s.tables.documents[documentId].workspaceId, documentId, s.nextId, s.nextId + |chunks|)
  {
    hide Upserted;
    RecordsAreNew(chunks, s.tables.documents[documentId].workspaceId, documentId, s.nextId, p.embed);
  }

  lemma IndexEvolves(
      p: Providers, s: State, documentId: nat, chunks: seq<TextChunk>, settings: Settings, fault: Fault)
    requires RecordsOk(s) && documentId in s.tables.documents
    ensures KeepsAndAdds(s, Index(p, s, documentId, chunks, settings, fault), documentId,
                         NotOf(s.tables.documents[documentId].workspaceId, documentId),
                         Written(p, s, documentId, chunks, settings, fault))
  {
    var workspaceId := s.tables.documents[documentId].workspaceId;
    IndexWrites(p, s, documentId, chunks, settings, fault);
    WrittenAreNew(p, s, documentId, chunks, settings, fault);
    hide Index, Written;
    var cleared := Without(s.records, workspaceId, documentId);
    FilterKeepsDistinct(s.records, NotOf(workspaceId, documentId));
    var at := Where(s.records, NotOf(workspaceId, documentId));
    forall k | 0 <= k < |cleared| ensures cleared[k].id < s.nextId {
      assert cleared[k] == s.records[at[k]] && RecordOk(s, s.records[at[k]]);
    }
    PutAllAppends(cleared, Written(p, s, documentId, chunks, settings, fault), s.nextId);
  }

  lemma UnchangedEvolves(s: State, documentId: nat, error: string)
    requires RecordsOk(s) && documentId in s.tables.documents
    ensures KeepsAndAdds(s, Attempt(Err(error), s.records, s.nextId), documentId, (r: VectorRecord) => true, [])
  {
    KeepAll(s.records);
  }

  lemma PartDeletionEvolves(s: State, documentId: nat, done: nat, error: string)
    requires RecordsOk(s) && documentId in s.tables.documents
    ensures var keys := Take(DocumentKeys(s.records, s.tables.documents[documentId].workspaceId, documentId), done);
      KeepsAndAdds(s, Attempt(Err(error), DropAll(s.records, keys), s.nextId), documentId, NoneOf(keys), [])
  {
    var workspaceId := s.tables.documents[documentId].workspaceId;
    var keys := Take(DocumentKeys(s.records, workspaceId, documentId), done);
    DropAllFilters(s.records, keys);
    KeysAreOwn(s.records, workspaceId, documentId, done);
    assert Filter(s.records, NoneOf(keys)) + [] == Filter(s.records, NoneOf(keys));
  }

  lemma KeepingEvolves(
      s: State, attempt: Attempt, documentId: nat, keep: VectorRecord -> bool, added: seq<VectorRecord>)
    requires RecordsOk(s) && documentId in s.tables.documents && KeepsAndAdds(s, attempt, documentId, keep, added)
    ensures s.nextId <= attempt.nextId
    ensures Evolves(s.records, attempt.records, s.tables.documents[documentId].workspaceId, documentId,
                    s.nextId, attempt.nextId)
  {
    assert forall k :: 0 <= k < |s.records| ==> RecordOk(s, s.records[k]);
    KeptAndAdded(s.records, keep, added, s.tables.documents[documentId].workspaceId, documentId,
                 s.nextId, attempt.nextId);
  }

  lemma {:induction false} TryEvolves(
      p: Providers, s: State, documentId: nat, data: Bytes, settings: Settings, fault: Fault)
    requires RecordsOk(s) && documentId in s.tables.documents
    ensures s.nextId <= Try(p, s, documentId, data, settings, fault).nextId
    ensures Evolves(s.records, Try(p, s, documentId, data, settings, fault).records,
                    s.tables.documents[documentId].workspaceId, documentId,
                    s.nextId, Try(p, s, documentId, data, settings, fault).nextId)
  {
    hide Index, Extracted, Evolves, Written, KeepsAndAdds, RecordsOk, DropAll, DocumentKeys;
    var document := s.tables.documents[documentId];
    var attempt := Try(p, s, documentId, data, settings, fault);
    match Extracted(p, document.filename, data, settings, fault)
    case Err(error) =>
      UnchangedEvolves(s, documentId, error);
      KeepingEvolves(s, attempt, documentId, (r: VectorRecord) => true, []);
    case Ok(chunks) =>
      if Strikes(fault, AtRowDelete) {
        UnchangedEvolves(s, documentId, fault.error);
        KeepingEvolves(s, attempt, documentId, (r: VectorRecord) => true, []);
      } else if fault.Fault? && fault.stage.AtVectorDelete? {
        var keys := Take(DocumentKeys(s.records, document.workspaceId, documentId), fault.stage.done);
        PartDeletionEvolves(s, documentId, fault.stage.done, fault.error);
        KeepingEvolves(s, attempt, documentId, NoneOf(keys), []);
      } else {
        IndexEvolves(p, s, documentId, chunks, settings, fault);
        KeepingEvolves(s, attempt, documentId, NotOf(document.workspaceId, documentId),
                       Written(p, s, documentId, chunks, settings, fault));
      }
  }

  lemma KeysAreOwn(records: seq<VectorRecord>, workspaceId: nat, documentId: nat, done: nat)
    requires Distinct(records)
    ensures var keys := Take(DocumentKeys(records, workspaceId, documentId), done);
      forall k :: 0 <= k < |records| && records[k].payload.documentId != documentId ==> NoneOf(keys)(records[k])
  {
    var all := DocumentKeys(records, workspaceId, documentId);
    var keys := Take(all, done);
    var at := Where(records, PartOf(workspaceId, documentId));
    forall k | 0 <= k < |records| && records[k].id in keys
      ensures records[k].payload.documentId == documentId
    {
      var n :| 0 <= n < |keys| && keys[n] == records[k].id;
      assert all[n] == records[at[n]].id;
      assert at[n] == k;
      assert PartOf(workspaceId, documentId)(records[at[n]]);
    }
  }

  // ----- Preservation -----

  /** The state after an ingestion of `documentId` that ended with `document`,
      `chunks` and `records`. */
  function Ended(
      s: State, documentId: nat, document: Document, chunks: seq<ChunkRow>, records: seq<VectorRecord>, nextId: nat)
    : State
  {
    State(Tables(s.tables.documents[documentId := document], chunks), s.files, records, nextId)
  }

  predicate SameDocument(a: Document, b: Document) {
    a.workspaceId == b.workspaceId && a.checksum == b.checksum && a.deleted == b.deleted
  }

  lemma RecordsStayOk(
      s: State, documentId: nat, document: Document, chunks: seq<ChunkRow>, records: seq<VectorRecord>, nextId: nat)
    requires RecordsOk(s) && documentId in s.tables.documents && !s.tables.documents[documentId].deleted
    requires SameDocument(document, s.tables.documents[documentId]) && nextId >= s.nextId
    requires Evolves(s.records, records, document.workspaceId, documentId, s.nextId, nextId)
    ensures RecordsOk(Ended(s, documentId, document, chunks, records, nextId))
  {
    var after := Ended(s, documentId, document, chunks, records, nextId);
    forall k | 0 <= k < |records| ensures RecordOk(after, records[k]) {
      if records[k] in s.records {
        var j :| 0 <= j < |s.records| && s.records[j] == records[k];
        assert RecordOk(s, s.records[j]);
      }
    }
  }

  lemma ChecksumsStayUnique(
      s: State, documentId: nat, document: Document, chunks: seq<ChunkRow>, records: seq<VectorRecord>, nextId: nat)
    requires ChecksumsUnique(s) && documentId in s.tables.documents
    requires SameDocument(document, s.tables.documents[documentId])
    ensures ChecksumsUnique(Ended(s, documentId, document, chunks, records, nextId))
  {
  }

  lemma OthersStayOk(
      p: Providers, s: State, h: History, documentId: nat, document: Document, chunks: seq<ChunkRow>,
      records: seq<VectorRecord>, nextId: nat, now: History, d: nat)
    requires documentId in s.tables.documents && nextId >= s.nextId
    requires (d in now <==> d in h) && BatchOf(now, d) == BatchOf(h, d)
    requires Evolves(s.records, records, document.workspaceId, documentId, s.nextId, nextId)
    requires d in s.tables.documents && d != documentId && DocumentOk(p, s, h, d)
    requires RowsOf(chunks, d) == RowsOf(s.tables.chunks, d)
    ensures DocumentOk(p, Ended(s, documentId, document, chunks, records, nextId), now, d)
  {
    var w := s.tables.documents[d].workspaceId;
    assert RecordsOf(records, w, d) == RecordsOf(s.records, w, d);
    hide RecordsOf, RowsOf, StatusOk;
  }

  /** A failed ingestion keeps the invariant: old rows come back, new vectors have
      ids no row uses. */
  lemma FailureKeepsInv(
      p: Providers, s: State, h: History, documentId: nat, error: string, records: seq<VectorRecord>, nextId: nat)
    requires Inv(p, s, h) && documentId in s.tables.documents && !s.tables.documents[documentId].deleted
    requires nextId >= s.nextId
    requires Evolves(s.records, records, s.tables.documents[documentId].workspaceId, documentId, s.nextId, nextId)
    ensures Inv(p, Ended(s, documentId,
                         s.tables.documents[documentId].(status := Failed, error := Some(error), chunkCount := 0),
                         s.tables.chunks, records, nextId), h)
  {
    hide RecordsOf, RowsOf, ChecksumsUnique, RecordsOk, Consistent, Evolves;
    var document := s.tables.documents[documentId].(status := Failed, error := Some(error), chunkCount := 0);
    var after := Ended(s, documentId, document, s.tables.chunks, records, nextId);
    RecordsStayOk(s, documentId, document, s.tables.chunks, records, nextId);
    OldRowsConsistent(s, documentId, records, nextId);
    forall d | d in after.tables.documents ensures DocumentOk(p, after, h, d) {
      assert DocumentOk(p, s, h, d);
      if d != documentId {
        OthersStayOk(p, s, h, documentId, document, s.tables.chunks, records, nextId, h, d);
      }
    }
    ChecksumsStayUnique(s, documentId, document, s.tables.chunks, records, nextId);
  }

  lemma OldRowsConsistent(s: State, documentId: nat, records: seq<VectorRecord>, nextId: nat)
    requires RowsOk(s) && Consistent(s.records, s.tables.chunks) && documentId in s.tables.documents
    requires Evolves(s.records, records, s.tables.documents[documentId].workspaceId, documentId, s.nextId, nextId)
    ensures Consistent(records, s.tables.chunks)
  {
    forall i, j | 0 <= i < |records| && 0 <= j < |s.tables.chunks| && records[i].id == s.tables.chunks[j].id
      ensures Describes(records[i], s.tables.chunks[j])
    {
      if records[i] in s.records {
        var k :| 0 <= k < |s.records| && s.records[k] == records[i];
        assert Describes(s.records[k], s.tables.chunks[j]);
      }
    }
  }

  // ----- Success -----

  /** The rows after a successful ingestion. */
  function Replaced(chunks: seq<ChunkRow>, documentId: nat, rows: seq<ChunkRow>): seq<ChunkRow> {
    Filter(chunks, NotInDocument(documentId)) + rows
  }

  lemma ReplacedByDocument(was: seq<ChunkRow>, documentId: nat, rows: seq<ChunkRow>)
    requires forall k :: 0 <= k < |rows| ==> rows[k].documentId == documentId
    ensures RowsOf(Replaced(was, documentId, rows), documentId) == rows
    ensures forall d :: d != documentId ==> RowsOf(Replaced(was, documentId, rows), d) == RowsOf(was, d)
  {
    var kept := Filter(was, NotInDocument(documentId));
    FilterConcat(kept, rows, InDocument(documentId));
    FilterAll(rows, InDocument(documentId));
    forall k | 0 <= k < |kept| ensures !InDocument(documentId)(kept[k]) {
      assert NotInDocument(documentId)(kept[k]);
    }
    FilterNone(kept, InDocument(documentId));
    assert [] + rows == rows;
    forall d | d != documentId ensures RowsOf(Replaced(was, documentId, rows), d) == RowsOf(was, d) {
      FilterConcat(kept, rows, InDocument(d));
      FilterNone(rows, InDocument(d));
      FilterTwice(was, NotInDocument(documentId), InDocument(d));
      assert RowsOf(was, d) + [] == RowsOf(was, d);
    }
  }

  /** Where the rows come from: kept ones from the old table, then the new ones. */
  lemma ReplacedOrigin(was: seq<ChunkRow>, documentId: nat, rows: seq<ChunkRow>, k: nat)
      returns (i: nat)
    requires k < |Replaced(was, documentId, rows)|
    ensures var kept := |Replaced(was, documentId, rows)| - |rows|;
      && 0 <= kept <= |was|
      && (k < kept ==> i == Where(was, NotInDocument(documentId))[k] && i < |was|
                       && Replaced(was, documentId, rows)[k] == was[i] && was[i].documentId != documentId)
      && (k >= kept ==> i == k - kept && Replaced(was, documentId, rows)[k] == rows[i])
  {
    var at := Where(was, NotInDocument(documentId));
    if k < |at| {
      i := at[k];
      assert NotInDocument(documentId)(was[i]);
    } else {
      i := k - |at|;
    }
  }

  lemma RowsStayOk(s: State, documentId: nat, document: Document, chunks: seq<TextChunk>, records: seq<VectorRecord>)
    requires RowsOk(s) && documentId in s.tables.documents
    ensures RowsOk(Ended(s, documentId, document,
                         Replaced(s.tables.chunks, documentId, NewRows(chunks, documentId, s.nextId)),
                         records, s.nextId + |chunks|))
  {
    var was, rows := s.tables.chunks, NewRows(chunks, documentId, s.nextId);
    var now, at := Replaced(was, documentId, rows), Where(was, NotInDocument(documentId));
    forall k | 0 <= k < |now|
      ensures now[k].id < s.nextId + |chunks| && now[k].documentId in s.tables.documents
    {
      var i := ReplacedOrigin(was, documentId, rows, k);
    }
    forall j, k | 0 <= j < k < |now| ensures now[j].id != now[k].id {
      var i := ReplacedOrigin(was, documentId, rows, j);
      var l := ReplacedOrigin(was, documentId, rows, k);
      if k < |now| - |rows| {
        assert at[j] < at[k];
      }
    }
  }

  lemma SucceededContent(
      p: Providers, s: State, documentId: nat, chunks: seq<TextChunk>, batchSize: int)
    requires documentId in s.tables.documents
    ensures var after, w := Succeeded(p, s, documentId, chunks, batchSize), s.tables.documents[documentId].workspaceId;
      var rows := NewRows(chunks, documentId, s.nextId);
      && RowsOf(after.tables.chunks, documentId) == rows
      && RecordsOf(after.records, w, documentId) == Embedded(rows, w, p.embed, batchSize)
  {
    var rows, w := NewRows(chunks, documentId, s.nextId), s.tables.documents[documentId].workspaceId;
    RecordsAreNew(chunks, w, documentId, s.nextId, p.embed);
    ReplacedByDocument(s.tables.chunks, documentId, rows);
    OwnRecords(s.records, w, documentId, Embedded(rows, w, p.embed, batchSize));
    hide RecordsOf, RowsOf, Without, Replaced;
  }

  lemma SucceededDocument(
      p: Providers, s: State, h: History, documentId: nat, chunks: seq<TextChunk>, batchSize: int)
    requires documentId in s.tables.documents && DocumentOk(p, s, h, documentId)
    requires chunks != [] && forall k :: 0 <= k < |chunks| ==> chunks[k].ordinal == k
    ensures DocumentOk(p, Succeeded(p, s, documentId, chunks, batchSize), h[documentId := batchSize], documentId)
  {
    hide RecordsOf, RowsOf, Without, Replaced, Embedded;
    SucceededContent(p, s, documentId, chunks, batchSize);
  }

  lemma SucceededOther(
      p: Providers, s: State, h: History, documentId: nat, chunks: seq<TextChunk>, batchSize: int, d: nat)
    requires documentId in s.tables.documents && d in s.tables.documents && d != documentId
    requires RecordsOk(s) && DocumentOk(p, s, h, d)
    ensures DocumentOk(p, Succeeded(p, s, documentId, chunks, batchSize), h[documentId := batchSize], d)
  {
    var rows := NewRows(chunks, documentId, s.nextId);
    var document := s.tables.documents[documentId].(status := Indexed, error := None, chunkCount := |rows|);
    RecordsEvolve(s, documentId, chunks, p.embed, batchSize);
    ReplacedByDocument(s.tables.chunks, documentId, rows);
    hide RecordsOf, RowsOf, Without, Replaced, Evolves, DocumentOk;
    OthersStayOk(p, s, h, documentId, document, Replaced(s.tables.chunks, documentId, rows),
                 Succeeded(p, s, documentId, chunks, batchSize).records, s.nextId + |chunks|,
                 h[documentId := batchSize], d);
  }

  /** The state after a successful ingestion that cut the document into `chunks`. */
  function Succeeded(p: Providers, s: State, documentId: nat, chunks: seq<TextChunk>, batchSize: int): State
    requires documentId in s.tables.documents
  {
    var rows := NewRows(chunks, documentId, s.nextId);
    var document := s.tables.documents[documentId].(status := Indexed, error := None, chunkCount := |rows|);
    Ended(s, documentId, document, Replaced(s.tables.chunks, documentId, rows),
          Without(s.records, document.workspaceId, documentId)
          + Embedded(rows, document.workspaceId, p.embed, batchSize),
          s.nextId + |chunks|)
  }

  lemma RecordsEvolve(s: State, documentId: nat, chunks: seq<TextChunk>, embed: string -> Vector, batchSize: int)
    requires RecordsOk(s) && documentId in s.tables.documents
    ensures var workspaceId := s.tables.documents[documentId].workspaceId;
      Evolves(s.records,
              Without(s.records, workspaceId, documentId)
              + Embedded(NewRows(chunks, documentId, s.nextId), workspaceId, embed, batchSize),
              workspaceId, documentId, s.nextId, s.nextId + |chunks|)
  {
    var workspaceId := s.tables.documents[documentId].workspaceId;
    RecordsAreNew(chunks, workspaceId, documentId, s.nextId, embed);
    KeptAndAdded(s.records, NotOf(workspaceId, documentId),
                 Embedded(NewRows(chunks, documentId, s.nextId), workspaceId, embed, batchSize),
                 workspaceId, documentId, s.nextId, s.nextId + |chunks|);
  }

  lemma SucceededRecords(p: Providers, s: State, documentId: nat, chunks: seq<TextChunk>, batchSize: int)
    requires RecordsOk(s) && documentId in s.tables.documents && !s.tables.documents[documentId].deleted
    ensures RecordsOk(Succeeded(p, s, documentId, chunks, batchSize))
  {
    var rows := NewRows(chunks, documentId, s.nextId);
    var document := s.tables.documents[documentId].(status := Indexed, error := None, chunkCount := |rows|);
    var after := Succeeded(p, s, documentId, chunks, batchSize);
    hide RecordsOk, Evolves, Without, Replaced;
    RecordsEvolve(s, documentId, chunks, p.embed, batchSize);
    RecordsStayOk(s, documentId, document, Replaced(s.tables.chunks, documentId, rows), after.records, after.nextId);
  }

  lemma SucceededRows(p: Providers, s: State, documentId: nat, chunks: seq<TextChunk>, batchSize: int)
    requires RowsOk(s) && documentId in s.tables.documents
    ensures RowsOk(Succeeded(p, s, documentId, chunks, batchSize))
  {
    var rows := NewRows(chunks, documentId, s.nextId);
    var document := s.tables.documents[documentId].(status := Indexed, error := None, chunkCount := |rows|);
    var after := Succeeded(p, s, documentId, chunks, batchSize);
    hide RowsOk, Without, Replaced;
    RowsStayOk(s, documentId, document, chunks, after.records);
  }

  lemma SucceededAgreement(p: Providers, s: State, documentId: nat, chunks: seq<TextChunk>, batchSize: int)
    requires RecordsOk(s) && RowsOk(s) && Consistent(s.records, s.tables.chunks) && ChecksumsUnique(s)
    requires documentId in s.tables.documents
    ensures Consistent(Succeeded(p, s, documentId, chunks, batchSize).records,
                       Succeeded(p, s, documentId, chunks, batchSize).tables.chunks)
    ensures ChecksumsUnique(Succeeded(p, s, documentId, chunks, batchSize))
  {
    var rows := NewRows(chunks, documentId, s.nextId);
    var document := s.tables.documents[documentId].(status := Indexed, error := None, chunkCount := |rows|);
    var after := Succeeded(p, s, documentId, chunks, batchSize);
    hide RowsOk, RecordsOk, Without, Replaced, ChecksumsUnique, Consistent;
    NewRowsConsistent(s, documentId, chunks, p.embed, batchSize);
    ChecksumsStayUnique(s, documentId, document, Replaced(s.tables.chunks, documentId, rows), after.records,
                        after.nextId);
  }

  lemma SucceededDocuments(p: Providers, s: State, h: History, documentId: nat, chunks: seq<TextChunk>, batchSize: int)
    requires RecordsOk(s) && documentId in s.tables.documents
    requires forall d :: d in s.tables.documents ==> DocumentOk(p, s, h, d)
    requires chunks != [] && forall k :: 0 <= k < |chunks| ==> chunks[k].ordinal == k
    ensures forall d :: d in Succeeded(p, s, documentId, chunks, batchSize).tables.documents ==>
              DocumentOk(p, Succeeded(p, s, documentId, chunks, batchSize), h[documentId := batchSize], d)
  {
    hide DocumentOk, Succeeded;
    forall d | d in Succeeded(p, s, documentId, chunks, batchSize).tables.documents
      ensures DocumentOk(p, Succeeded(p, s, documentId, chunks, batchSize), h[documentId := batchSize], d)
    {
      SucceededKeys(p, s, documentId, chunks, batchSize);
      if d == documentId {
        SucceededDocument(p, s, h, documentId, chunks, batchSize);
      } else {
        SucceededOther(p, s, h, documentId, chunks, batchSize, d);
      }
    }
  }

  lemma SucceededKeys(p: Providers, s: State, documentId: nat, chunks: seq<TextChunk>, batchSize: int)
    requires documentId in s.tables.documents
    ensures Succeeded(p, s, documentId, chunks, batchSize).tables.documents.Keys == s.tables.documents.Keys
  {
  }

  /** A successful ingestion keeps the invariant, and its records mirror its rows. */
  lemma SuccessKeepsInv(p: Providers, s: State, h: History, documentId: nat, chunks: seq<TextChunk>, batchSize: int)
    requires Inv(p, s, h) && documentId in s.tables.documents && !s.tables.documents[documentId].deleted
    requires chunks != [] && forall k :: 0 <= k < |chunks| ==> chunks[k].ordinal == k
    ensures Inv(p, Succeeded(p, s, documentId, chunks, batchSize), h[documentId := batchSize])
  {
    hide Without, Replaced, RowsOk, RecordsOk, Consistent, Embedded, NewRows, DocumentOk, ChecksumsUnique;
    SucceededRecords(p, s, documentId, chunks, batchSize);
    SucceededRows(p, s, documentId, chunks, batchSize);
    SucceededAgreement(p, s, documentId, chunks, batchSize);
    SucceededDocuments(p, s, h, documentId, chunks, batchSize);
  }

  lemma OwnRecords(
      was: seq<VectorRecord>, workspaceId: nat, documentId: nat, added: seq<VectorRecord>)
    requires forall k :: 0 <= k < |added| ==> Belongs(added[k], workspaceId, documentId)
    ensures RecordsOf(Without(was, workspaceId, documentId) + added, workspaceId, documentId) == added
  {
    var kept := Without(was, workspaceId, documentId);
    var own := PartOf(workspaceId, documentId);
    FilterConcat(kept, added, own);
    FilterAll(added, own);
    forall k | 0 <= k < |kept| ensures !own(kept[k]) {
      assert NotOf(workspaceId, documentId)(kept[k]);
    }
    FilterNone(kept, own);
    assert [] + added == added;
  }

  lemma NewRowsConsistent(
      s: State, documentId: nat, chunks: seq<TextChunk>, embed: string -> Vector, batchSize: int)
    requires RecordsOk(s) && RowsOk(s) && Consistent(s.records, s.tables.chunks) && documentId in s.tables.documents
    ensures var rows := NewRows(chunks, documentId, s.nextId);
      var workspaceId := s.tables.documents[documentId].workspaceId;
      Consistent(Without(s.records, workspaceId, documentId) + Embedded(rows, workspaceId, embed, batchSize),
                 Replaced(s.tables.chunks, documentId, rows))
  {
    var rows := NewRows(chunks, documentId, s.nextId);
    var workspaceId := s.tables.documents[documentId].workspaceId;
    var kept, added := Without(s.records, workspaceId, documentId), Embedded(rows, workspaceId, embed, batchSize);
    var records, now := kept + added, Replaced(s.tables.chunks, documentId, rows);
    var at := Where(s.records, NotOf(workspaceId, documentId));
    hide Replaced, Describes, Consistent, RecordsOk, RowsOk;
    assert Consistent(records, now) by {
      forall i, j | 0 <= i < |records| && 0 <= j < |now| && records[i].id == now[j].id
        ensures Describes(records[i], now[j])
      {
        if i < |kept| {
          OldRecordDescribes(s, documentId, rows, at[i], j);
        } else {
          NewRecordDescribes(s, documentId, rows, workspaceId, embed, i - |kept|, j);
        }
      }
      MeansConsistent(records, now);
    }
  }

  lemma MeansConsistent(records: seq<VectorRecord>, chunks: seq<ChunkRow>)
    requires forall i, j :: 0 <= i < |records| && 0 <= j < |chunks| && records[i].id == chunks[j].id ==>
               Describes(records[i], chunks[j])
    ensures Consistent(records, chunks)
  {
  }

  lemma OldRecordDescribes(s: State, documentId: nat, rows: seq<ChunkRow>, i: nat, j: nat)
    requires RecordsOk(s) && Consistent(s.records, s.tables.chunks)
    requires forall k :: 0 <= k < |rows| ==> rows[k].id >= s.nextId
    requires i < |s.records| && j < |Replaced(s.tables.chunks, documentId, rows)|
    requires s.records[i].id == Replaced(s.tables.chunks, documentId, rows)[j].id
    ensures Describes(s.records[i], Replaced(s.tables.chunks, documentId, rows)[j])
  {
    hide Replaced, Describes;
    var k := ReplacedOrigin(s.tables.chunks, documentId, rows, j);
    assert RecordOk(s, s.records[i]);
    assert Describes(s.records[i], s.tables.chunks[k]);
  }

  lemma NewRecordDescribes(
      s: State, documentId: nat, rows: seq<ChunkRow>, workspaceId: nat, embed: string -> Vector, i: nat, j: nat)
    requires RowsOk(s) && forall k :: 0 <= k < |rows| ==> rows[k].id == s.nextId + k
    requires i < |rows| && j < |Replaced(s.tables.chunks, documentId, rows)|
    requires rows[i].id == Replaced(s.tables.chunks, documentId, rows)[j].id
    ensures Describes(RecordFor(rows[i], workspaceId, embed), Replaced(s.tables.chunks, documentId, rows)[j])
  {
    hide Replaced;
    var k := ReplacedOrigin(s.tables.chunks, documentId, rows, j);
  }

  // ----- Whole ingestions -----

  lemma ExtractedChunks(p: Providers, filename: string, data: Bytes, settings: Settings, fault: Fault)
    requires Extracted(p, filename, data, settings, fault).Ok?
    ensures var chunks := Extracted(p, filename, data, settings, fault).value;
      chunks != [] && forall k :: 0 <= k < |chunks| ==> chunks[k].ordinal == k
  {
    hide AllChunks;
    var pages := p.extract(filename, data).value;
    ChunksWellFormed(pages, settings.chunkSize, Chunker.Step(settings.chunkSize, settings.chunkOverlap),
                     p.latestSection);
  }

  lemma SuccessfulIndex(
      p: Providers, s: State, documentId: nat, chunks: seq<TextChunk>, settings: Settings, fault: Fault)
    requires RecordsOk(s) && documentId in s.tables.documents
    requires Index(p, s, documentId, chunks, settings, fault).result.Ok?
    ensures settings.batchSize != 0
    ensures var attempt := Index(p, s, documentId, chunks, settings, fault);
      State(attempt.result.value, s.files, attempt.records, attempt.nextId)
      == Succeeded(p, s, documentId, chunks, settings.batchSize)
  {
    var rows := NewRows(chunks, documentId, s.nextId);
    if settings.batchSize > 0 && fault.Fault? && fault.stage.AtEmbed? {
      CutLength(Texts(rows), settings.batchSize, fault.stage.batch);
    }
    IndexRecords(p, s, documentId, chunks, settings, fault);
    TakeEnds(RecordsFor(rows, s.tables.documents[documentId].workspaceId, p.embed));
    hide Without, Cut, PutAll, Texts, RecordsFor, NewRows, Take, Filter;
  }

  /** An attempt that gets to its commit has exactly the effect of replacing rows and
      records, and its batch size was not zero. */
  lemma {:induction false} SuccessfulIngest(
      p: Providers, s: State, documentId: nat, data: Bytes, settings: Settings, fault: Fault)
    requires RecordsOk(s) && documentId in s.tables.documents
    requires Try(p, s, documentId, data, settings, fault).result.Ok?
    ensures var chunks := Extracted(p, s.tables.documents[documentId].filename, data, settings, fault);
      && chunks.Ok? && settings.batchSize != 0
      && Ingest(p, s, documentId, data, settings, fault)
         == Succeeded(p, s, documentId, chunks.value, settings.batchSize)
  {
    hide Extracted, Index, Succeeded, DropAll, DocumentKeys, RecordsOk;
    var chunks := Extracted(p, s.tables.documents[documentId].filename, data, settings, fault).value;
    SuccessfulIndex(p, s, documentId, chunks, settings, fault);
  }

  lemma IndexRecords(
      p: Providers, s: State, documentId: nat, chunks: seq<TextChunk>, settings: Settings, fault: Fault)
    requires RecordsOk(s) && documentId in s.tables.documents
    ensures Index(p, s, documentId, chunks, settings, fault).records
         == Without(s.records, s.tables.documents[documentId].workspaceId, documentId)
            + Written(p, s, documentId, chunks, settings, fault)
  {
    hide Index, Written;
    IndexEvolves(p, s, documentId, chunks, settings, fault);
  }

  /** The history after an ingestion. */
  function Noted(
    p: Providers, s: State, h: History, documentId: nat, data: Bytes, settings: Settings, fault: Fault): History
    requires documentId in s.tables.documents
  {
    if Try(p, s, documentId, data, settings, fault).result.Ok? then h[documentId := settings.batchSize] else h
  }

  /** Ingestion keeps the invariant, wherever a failure strikes and whatever the batch size. */
  lemma {:induction false} IngestKeepsInv(
      p: Providers, s: State, h: History, documentId: nat, data: Bytes, settings: Settings, fault: Fault)
    requires Inv(p, s, h) && documentId in s.tables.documents && !s.tables.documents[documentId].deleted
    ensures Inv(p, Ingest(p, s, documentId, data, settings, fault),
                Noted(p, s, h, documentId, data, settings, fault))
  {
    var attempt := Try(p, s, documentId, data, settings, fault);
    assert RecordsOk(s);
    hide Inv, Try, Extracted, Evolves, RecordsOk;
    match attempt.result
    case Ok(tables) =>
      SuccessfulIngest(p, s, documentId, data, settings, fault);
      ExtractedChunks(p, s.tables.documents[documentId].filename, data, settings, fault);
      SuccessKeepsInv(p, s, h, documentId,
                      Extracted(p, s.tables.documents[documentId].filename, data, settings, fault).value,
                      settings.batchSize);
    case Err(error) =>
      TryEvolves(p, s, documentId, data, settings, fault);
      FailureKeepsInv(p, s, h, documentId, error, attempt.records, attempt.nextId);
  }

  // ----- The other operations -----

  lemma StrangersHaveNothing(s: State, w: nat, d: nat)
    requires RecordsOk(s) && RowsOk(s) && d !in s.tables.documents
    ensures RowsOf(s.tables.chunks, d) == [] && RecordsOf(s.records, w, d) == []
  {
    FilterNone(s.tables.chunks, InDocument(d));
    forall k | 0 <= k < |s.records| ensures !PartOf(w, d)(s.records[k]) {
      assert RecordOk(s, s.records[k]);
    }
    FilterNone(s.records, PartOf(w, d));
  }

  lemma NextIdIsNew(p: Providers, s: State, h: History)
    requires Inv(p, s, h)
    ensures s.nextId !in s.tables.documents && s.nextId !in s.files && s.nextId !in h
  {
    forall d | d in s.tables.documents ensures d < s.nextId {
      assert DocumentOk(p, s, h, d);
    }
  }

  lemma RegisterKeepsRecords(p: Providers, s: State, workspaceId: nat, filename: string, data: Bytes)
    requires RecordsOk(s) && RowsOk(s) && s.nextId !in s.tables.documents
    ensures RecordsOk(Registered(s, p, workspaceId, filename, data))
    ensures RowsOk(Registered(s, p, workspaceId, filename, data))
  {
    forall k | 0 <= k < |s.records| ensures RecordOk(Registered(s, p, workspaceId, filename, data), s.records[k]) {
      assert RecordOk(s, s.records[k]);
    }
  }

  lemma RegisterKeepsDocuments(
      p: Providers, s: State, h: History, workspaceId: nat, filename: string, data: Bytes, d: nat)
    requires RecordsOk(s) && RowsOk(s) && s.nextId !in s.tables.documents && s.nextId !in h
    requires d == s.nextId || (d in s.tables.documents && DocumentOk(p, s, h, d))
    ensures DocumentOk(p, Registered(s, p, workspaceId, filename, data), h, d)
  {
    StrangersHaveNothing(s, workspaceId, s.nextId);
    hide RowsOf, RecordsOf, RecordsOk, RowsOk;
  }

  lemma RegisterKeepsUnique(p: Providers, s: State, workspaceId: nat, filename: string, data: Bytes)
    requires ChecksumsUnique(s) && s.nextId !in s.tables.documents
    requires WithChecksum(s, workspaceId, p.digest(data)) == {}
    ensures ChecksumsUnique(Registered(s, p, workspaceId, filename, data))
  {
    forall d | d in s.tables.documents
      ensures !HasChecksum(s.tables.documents[d], workspaceId, p.digest(data))
    {
      assert d !in WithChecksum(s, workspaceId, p.digest(data));
    }
  }

  lemma RegisterKeepsInv(p: Providers, s: State, h: History, workspaceId: nat, filename: string, data: Bytes)
    requires Inv(p, s, h) && WithChecksum(s, workspaceId, p.digest(data)) == {}
    ensures s.nextId !in s.tables.documents
    ensures Inv(p, Registered(s, p, workspaceId, filename, data), h)
  {
    NextIdIsNew(p, s, h);
    hide DocumentOk, RecordsOk, RowsOk, Consistent, ChecksumsUnique;
    var after := Registered(s, p, workspaceId, filename, data);
    RegisterKeepsRecords(p, s, workspaceId, filename, data);
    RegisterKeepsUnique(p, s, workspaceId, filename, data);
    forall d | d in after.tables.documents ensures DocumentOk(p, after, h, d) {
      RegisterKeepsDocuments(p, s, h, workspaceId, filename, data, d);
    }
  }

  /** The state after deleting a document. */
  function Deleted(s: State, documentId: nat): State
    requires documentId in s.tables.documents
  {
    var document := s.tables.documents[documentId];
    s.(tables := s.tables.(documents := s.tables.documents[documentId := document.(deleted := true)]),
       records := Without(s.records, document.workspaceId, documentId))
  }

  lemma DeleteKeepsRecords(s: State, documentId: nat)
    requires RecordsOk(s) && Consistent(s.records, s.tables.chunks) && documentId in s.tables.documents
    ensures RecordsOk(Deleted(s, documentId)) && Consistent(Deleted(s, documentId).records, s.tables.chunks)
  {
    var w := s.tables.documents[documentId].workspaceId;
    var kept, at := Without(s.records, w, documentId), Where(s.records, NotOf(w, documentId));
    FilterKeepsDistinct(s.records, NotOf(w, documentId));
    forall k | 0 <= k < |kept| ensures kept[k] == s.records[at[k]] && RecordOk(Deleted(s, documentId), kept[k]) {
      assert NotOf(w, documentId)(kept[k]) && RecordOk(s, s.records[at[k]]);
    }
  }

  lemma DeleteKeepsDocument(p: Providers, s: State, h: History, documentId: nat, d: nat)
    requires documentId in s.tables.documents && d in s.tables.documents && DocumentOk(p, s, h, d)
    ensures DocumentOk(p, Deleted(s, documentId), h, d)
  {
    var w := s.tables.documents[documentId].workspaceId;
    var kept := Without(s.records, w, documentId);
    assert kept + [] == kept;
    if d == documentId {
      OwnRecords(s.records, w, documentId, []);
    } else {
      OtherDocuments(s.records, NotOf(w, documentId), [], documentId, s.tables.documents[d].workspaceId, d);
    }
    hide Without, RecordsOf, RowsOf;
  }

  lemma DeleteKeepsInv(p: Providers, s: State, h: History, documentId: nat)
    requires Inv(p, s, h) && documentId in s.tables.documents
    ensures Inv(p, Deleted(s, documentId), h)
  {
    hide DocumentOk, RecordsOk, Consistent, Without;
    DeleteKeepsRecords(s, documentId);
    forall d | d in s.tables.documents ensures DocumentOk(p, Deleted(s, documentId), h, d) {
      DeleteKeepsDocument(p, s, h, documentId, d);
    }
  }

  // ----- Runs -----

  /** The history after an operation: only a successful ingestion changes it. */
  function HistoryAfter(p: Providers, s: State, h: History, op: Op): History {
    match op
    case Create(workspaceId, isMember, filename, data, settings, fault) =>
      if isMember && WithChecksum(s, workspaceId, p.digest(data)) == {} && settings.ingestEager
      then Noted(p, Registered(s, p, workspaceId, filename, data), h, s.nextId, data, settings, fault) else h
    case Delete(_, _, _) => h
    case Reprocess(workspaceId, isMember, documentId, settings, fault) =>
      if isMember && Visible(s, workspaceId, documentId) && documentId in s.files
      then Noted(p, s, h, documentId, s.files[documentId], settings, fault) else h
    case Job(documentId, settings, fault) =>
      if documentId in s.tables.documents && !s.tables.documents[documentId].deleted && documentId in s.files
      then Noted(p, s, h, documentId, s.files[documentId], settings, fault) else h
  }

  function HistoryFrom(p: Providers, s: State, h: History, ops: seq<Op>): History {
    if ops == [] then h
    else
      var before := ops[..|ops| - 1];
      HistoryAfter(p, RunFrom(p, s, before), HistoryFrom(p, s, h, before), ops[|ops| - 1])
  }

  function HistoryOf(p: Providers, ops: seq<Op>): History { HistoryFrom(p, Start(), map[], ops) }

  lemma CreateKeepsInv(
      p: Providers, s: State, h: History, workspaceId: nat, isMember: bool, filename: string, data: Bytes,
      settings: Settings, fault: Fault)
    requires Inv(p, s, h)
    ensures var op := Create(workspaceId, isMember, filename, data, settings, fault);
      Inv(p, Ingestion.Step(p, s, op).0, HistoryAfter(p, s, h, op))
  {
    hide Inv, Ingest, Noted;
    LiveIsHeld(s, workspaceId, p.digest(data));
    if isMember && WithChecksum(s, workspaceId, p.digest(data)) == {} {
      RegisterKeepsInv(p, s, h, workspaceId, filename, data);
      if settings.ingestEager {
        IngestKeepsInv(p, Registered(s, p, workspaceId, filename, data), h, s.nextId, data, settings, fault);
      }
    }
  }

  lemma LiveIsHeld(s: State, workspaceId: nat, checksum: string)
    ensures LiveWithChecksum(s, workspaceId, checksum) <= WithChecksum(s, workspaceId, checksum)
  {
  }

  /** Every operation keeps the invariant, whatever fails in it. */
  lemma StepKeepsInv(p: Providers, s: State, h: History, op: Op)
    requires Inv(p, s, h)
    ensures Inv(p, Ingestion.Step(p, s, op).0, HistoryAfter(p, s, h, op))
  {
    hide Inv, Ingest, Noted;
    match op
    case Create(workspaceId, isMember, filename, data, settings, fault) =>
      CreateKeepsInv(p, s, h, workspaceId, isMember, filename, data, settings, fault);
    case Delete(workspaceId, isMember, documentId) =>
      if isMember && Visible(s, workspaceId, documentId) {
        DeleteKeepsInv(p, s, h, documentId);
      }
    case Reprocess(workspaceId, isMember, documentId, settings, fault) =>
      if isMember && Visible(s, workspaceId, documentId) && documentId in s.files {
        IngestKeepsInv(p, s, h, documentId, s.files[documentId], settings, fault);
      }
    case Job(documentId, settings, fault) =>
      if documentId in s.tables.documents && !s.tables.documents[documentId].deleted && documentId in s.files {
        IngestKeepsInv(p, s, h, documentId, s.files[documentId], settings, fault);
      }
  }

  lemma {:induction false} RunFromKeepsInv(p: Providers, s: State, h: History, ops: seq<Op>)
    requires Inv(p, s, h)
    ensures Inv(p, RunFrom(p, s, ops), HistoryFrom(p, s, h, ops))
    decreases |ops|
  {
    hide Inv, Ingestion.Step, HistoryAfter;
    if ops != [] {
      var before := ops[..|ops| - 1];
      RunFromKeepsInv(p, s, h, before);
      StepKeepsInv(p, RunFrom(p, s, before), HistoryFrom(p, s, h, before), ops[|ops| - 1]);
    }
  }

  /** Every run keeps the invariant: no operation and no failure is excluded. */
  lemma RunKeepsInv(p: Providers, ops: seq<Op>)
    ensures Inv(p, Ingestion.Run(p, ops), HistoryOf(p, ops))
  {
    StartIsOk(p);
    hide Inv;
    RunFromKeepsInv(p, Start(), map[], ops);
  }

  lemma StartIsOk(p: Providers)
    ensures Inv(p, Start(), map[])
  {
  }

  // ----- What the invariant says -----

  /** Records and rows of the document match one to one, with equal ids, data and
      embeddings, and their number is the chunk count. */
  predicate Mirrored(p: Providers, s: State, d: nat)
    requires d in s.tables.documents
  {
    var document := s.tables.documents[d];
    var rows, records := RowsOf(s.tables.chunks, d), RecordsOf(s.records, document.workspaceId, d);
    && document.chunkCount == |rows| == |records| >= 1
    && forall k :: 0 <= k < |rows| ==>
         && rows[k].ordinal == k && records[k].id == rows[k].id
         && Describes(records[k], rows[k]) && records[k].vector == p.embed(rows[k].text)
  }

  /** A live indexed document is mirrored exactly when its last successful ingestion
      had no negative batch size. The chunk count is true of the rows except for a
      failed document that had been ingested before. A failed document has an error,
      no document is left processing, a deleted one has no records. */
  predicate Agrees(p: Providers, s: State, h: History, d: nat)
    requires d in s.tables.documents
  {
    var document, rows := s.tables.documents[d], RowsOf(s.tables.chunks, d);
    && (document.status == Indexed && !document.deleted ==> (Mirrored(p, s, d) <==> d in h && h[d] >= 0))
    && (document.status == Indexed ==> d in h && document.chunkCount == |rows| >= 1 && document.error.None?)
    && (document.chunkCount == |rows| <==> document.status != Failed || d !in h)
    && (document.status == Failed ==> document.chunkCount == 0 && document.error.Some?)
    && document.status != Processing
    && (document.deleted ==> RecordsOf(s.records, document.workspaceId, d) == [])
  }

  /** Index agreement after every run, with a failure anywhere in any ingestion. */
  lemma IndexAgreesAfterRuns(p: Providers, ops: seq<Op>, d: nat)
    requires d in Ingestion.Run(p, ops).tables.documents
    ensures Agrees(p, Ingestion.Run(p, ops), HistoryOf(p, ops), d)
  {
    hide Ingestion.Run, Agrees, Inv, HistoryOf;
    RunKeepsInv(p, ops);
    InvMeansAgreement(p, Ingestion.Run(p, ops), HistoryOf(p, ops), d);
  }

  lemma InvMeansAgreement(p: Providers, s: State, h: History, d: nat)
    requires Inv(p, s, h) && d in s.tables.documents
    ensures Agrees(p, s, h, d)
  {
    hide DocumentOk, RowsOf, RecordsOf, RowsOk, RecordsOk, Consistent, ChecksumsUnique, Agrees;
    if s.tables.documents[d].deleted {
      DeletedHasNoRecords(s, s.tables.documents[d].workspaceId, d);
    }
    OkMeansAgreement(p, s, h, d);
  }

  lemma OkMeansAgreement(p: Providers, s: State, h: History, d: nat)
    requires d in s.tables.documents && DocumentOk(p, s, h, d)
    requires s.tables.documents[d].deleted ==> RecordsOf(s.records, s.tables.documents[d].workspaceId, d) == []
    ensures Agrees(p, s, h, d)
  {
    hide RowsOf, RecordsOf;
  }

  lemma InvSays(p: Providers, s: State, h: History, d: nat)
    requires Inv(p, s, h) && d in s.tables.documents
    ensures DocumentOk(p, s, h, d)
  {
  }

  /** A successful ingestion leaves the document mirrored exactly when the batch size
      is not negative: a negative one skips embedding and still reports success. */
  lemma {:induction false} AgreementNeedsBatches(
      p: Providers, s: State, h: History, documentId: nat, data: Bytes, settings: Settings, fault: Fault)
    requires Inv(p, s, h) && documentId in s.tables.documents && !s.tables.documents[documentId].deleted
    requires Try(p, s, documentId, data, settings, fault).result.Ok?
    ensures var after := Ingest(p, s, documentId, data, settings, fault);
      && after.tables.documents[documentId].status == Indexed
      && (Mirrored(p, after, documentId) <==> settings.batchSize >= 0)
  {
    var after := Ingest(p, s, documentId, data, settings, fault);
    IngestKeepsInv(p, s, h, documentId, data, settings, fault);
    assert RecordsOk(s);
    hide Inv, Try, Mirrored, RecordsOk, Ingest;
    SuccessfulIngest(p, s, documentId, data, settings, fault);
    InvMeansAgreement(p, after, h[documentId := settings.batchSize], documentId);
  }

  lemma DeletedHasNoRecords(s: State, w: nat, d: nat)
    requires RecordsOk(s) && d in s.tables.documents && s.tables.documents[d].deleted
    ensures RecordsOf(s.records, w, d) == []
  {
    forall k | 0 <= k < |s.records| ensures !PartOf(w, d)(s.records[k]) {
      assert RecordOk(s, s.records[k]);
    }
    FilterNone(s.records, PartOf(w, d));
  }

  /** A deletion that stops after `done` keys leaves the document's later records. */
  lemma PartDeletionLeaves(records: seq<VectorRecord>, workspaceId: nat, documentId: nat, done: nat)
    requires Distinct(records)
    ensures var own := RecordsOf(records, workspaceId, documentId);
      var keys := Take(DocumentKeys(records, workspaceId, documentId), done);
      RecordsOf(DropAll(records, keys), workspaceId, documentId) == own[|Take(own, done)|..]
  {
    var own := RecordsOf(records, workspaceId, documentId);
    var keys := Take(DocumentKeys(records, workspaceId, documentId), done);
    DropAllFilters(records, keys);
    FilterCommutes(records, NoneOf(keys), PartOf(workspaceId, documentId));
    FilterKeepsDistinct(records, PartOf(workspaceId, documentId));
    FirstKeysGone(own, keys);
  }

  lemma {:induction false} FirstKeysGone(own: seq<VectorRecord>, keys: seq<nat>)
    requires Distinct(own) && |keys| <= |own| && forall n :: 0 <= n < |keys| ==> keys[n] == own[n].id
    ensures Filter(own, NoneOf(keys)) == own[|keys|..]
  {
    var gone, left := own[..|keys|], own[|keys|..];
    assert own == gone + left;
    FilterConcat(gone, left, NoneOf(keys));
    forall k | 0 <= k < |gone| ensures !NoneOf(keys)(gone[k]) {
      assert gone[k].id == keys[k];
    }
    FilterNone(gone, NoneOf(keys));
    forall k | 0 <= k < |left| ensures NoneOf(keys)(left[k]) {
      assert left[k] == own[|keys| + k];
    }
    FilterAll(left, NoneOf(keys));
  }

  /** What a failed ingestion leaves behind: the document is marked as failed with the
      error and chunk count 0, but its old rows always come back, so the count is true
      of them only if there were none. Its old vectors survive a failure before their
      deletion, and all but the first few a failure during it; any later failure
      leaves the records of the new rows written so far: none before the upsert. */
  lemma FailureLeftovers(
      p: Providers, s: State, documentId: nat, data: Bytes, settings: Settings, fault: Fault)
    requires RecordsOk(s) && documentId in s.tables.documents
    requires Try(p, s, documentId, data, settings, fault).result.Err?
    ensures var document := s.tables.documents[documentId];
      var after := Ingest(p, s, documentId, data, settings, fault);
      var error := Try(p, s, documentId, data, settings, fault).result.error;
      && after.tables.documents[documentId] == document.(status := Failed, error := Some(error), chunkCount := 0)
      && after.tables.chunks == s.tables.chunks
      && (after.tables.documents[documentId].chunkCount == |RowsOf(after.tables.chunks, documentId)|
          <==> RowsOf(s.tables.chunks, documentId) == [])
    ensures var document := s.tables.documents[documentId];
      var after := Ingest(p, s, documentId, data, settings, fault);
      var chunks := Extracted(p, document.filename, data, settings, fault);
      var was := RecordsOf(s.records, document.workspaceId, documentId);
      var now := RecordsOf(after.records, document.workspaceId, documentId);
      if chunks.Err? || Strikes(fault, AtRowDelete) then after.records == s.records
      else if fault.Fault? && fault.stage.AtVectorDelete? then now == was[|Take(was, fault.stage.done)|..]
      else
        var written := RecordsFor(NewRows(chunks.value, documentId, s.nextId), document.workspaceId, p.embed);
        if settings.batchSize <= 0 then now == []
        else if Strikes(fault, AtCommit) then now == written
        else if fault.Fault? && fault.stage.AtUpsert? then now == Take(written, fault.stage.done)
        else now == []
  {
    var document := s.tables.documents[documentId];
    var chunks := Extracted(p, document.filename, data, settings, fault);
    if chunks.Ok? && !Strikes(fault, AtRowDelete) {
      if fault.Fault? && fault.stage.AtVectorDelete? {
        hide Extracted, Index, RecordsOf, DropAll, DocumentKeys, RecordOk;
        PartDeletionLeaves(s.records, document.workspaceId, documentId, fault.stage.done);
      } else {
        LateFailure(p, s, documentId, data, settings, fault);
        hide Extracted, Index, RecordsOf, DropAll, DocumentKeys, RecordOk;
      }
    } else {
      hide Extracted, Index, RecordsOf, DropAll, DocumentKeys, RecordOk;
    }
  }

  lemma LateFailure(
      p: Providers, s: State, documentId: nat, data: Bytes, settings: Settings, fault: Fault)
    requires RecordsOk(s) && documentId in s.tables.documents
    requires Try(p, s, documentId, data, settings, fault).result.Err?
    requires Extracted(p, s.tables.documents[documentId].filename, data, settings, fault).Ok?
    requires !Strikes(fault, AtRowDelete) && !(fault.Fault? && fault.stage.AtVectorDelete?)
    ensures var document := s.tables.documents[documentId];
      var chunks := Extracted(p, document.filename, data, settings, fault).value;
      var written := RecordsFor(NewRows(chunks, documentId, s.nextId), document.workspaceId, p.embed);
      RecordsOf(Try(p, s, documentId, data, settings, fault).records, document.workspaceId, documentId)
      == if settings.batchSize <= 0 then []
         else if Strikes(fault, AtCommit) then written
         else if fault.Fault? && fault.stage.AtUpsert? then Take(written, fault.stage.done)
         else []
  {
    hide Extracted, Without, PutAll, DropAll, DocumentKeys, RecordsOf;
    var document := s.tables.documents[documentId];
    var chunks := Extracted(p, document.filename, data, settings, fault).value;
    if settings.batchSize > 0 && fault.Fault? && fault.stage.AtEmbed? {
      CutLength(Texts(NewRows(chunks, documentId, s.nextId)), settings.batchSize, fault.stage.batch);
    }
    IndexRecords(p, s, documentId, chunks, settings, fault);
    WrittenAreNew(p, s, documentId, chunks, settings, fault);
    OwnRecords(s.records, document.workspaceId, documentId, Written(p, s, documentId, chunks, settings, fault));
  }

  // ----- Replaying and reprocessing -----

  /** Reads off `Try` when an undisturbed ingestion succeeds. */
  lemma SucceedsExactlyWhen(p: Providers, s: State, documentId: nat, data: Bytes, settings: Settings)
    requires documentId in s.tables.documents
    ensures Try(p, s, documentId, data, settings, NoFault).result.Ok? <==>
      Extracted(p, s.tables.documents[documentId].filename, data, settings, NoFault).Ok? && settings.batchSize != 0
  {
    hide Extracted, Without, PutAll, Cut;
  }

  /** Replaying a live document after any run, whatever failed in it, indexes it and
      brings rows and index into agreement exactly when its text can still be
      extracted and the batch size is positive. */
  lemma {:induction false} ReplayRecovers(p: Providers, ops: seq<Op>, documentId: nat, settings: Settings)
    requires documentId in Ingestion.Run(p, ops).tables.documents
    requires !Ingestion.Run(p, ops).tables.documents[documentId].deleted
    ensures var s := Ingestion.Run(p, ops);
      var document := s.tables.documents[documentId];
      var after := Ingestion.Step(p, s, Reprocess(document.workspaceId, true, documentId, settings, NoFault)).0;
      && documentId in s.files && documentId in after.tables.documents
      && (after.tables.documents[documentId].status == Indexed && Mirrored(p, after, documentId)
          <==> Extracted(p, document.filename, s.files[documentId], settings, NoFault).Ok? && settings.batchSize >= 1)
  {
    hide Inv, Extracted, Ingest, Mirrored, Ingestion.Run, HistoryOf, DocumentOk;
    var s, h := Ingestion.Run(p, ops), HistoryOf(p, ops);
    RunKeepsInv(p, ops);
    InvSays(p, s, h, documentId);
    FileKept(p, s, h, documentId);
    IngestRecovers(p, s, h, documentId, s.files[documentId], settings);
  }

  lemma FileKept(p: Providers, s: State, h: History, d: nat)
    requires d in s.tables.documents && DocumentOk(p, s, h, d)
    ensures d in s.files
  {
  }

  lemma IngestRecovers(
      p: Providers, s: State, h: History, documentId: nat, data: Bytes, settings: Settings)
    requires Inv(p, s, h)
    requires documentId in s.tables.documents && !s.tables.documents[documentId].deleted
    ensures var after := Ingest(p, s, documentId, data, settings, NoFault);
      after.tables.documents[documentId].status == Indexed && Mirrored(p, after, documentId)
      <==> Extracted(p, s.tables.documents[documentId].filename, data, settings, NoFault).Ok?
           && settings.batchSize >= 1
  {
    SucceedsExactlyWhen(p, s, documentId, data, settings);
    assert RecordsOk(s);
    hide Extracted, Try, Mirrored, RecordsOk, Inv;
    if Try(p, s, documentId, data, settings, NoFault).result.Ok? {
      AgreementNeedsBatches(p, s, h, documentId, data, settings, NoFault);
    }
  }

  datatype Content = Content(ordinal: nat, text: string, page: Option<int>, section: Option<string>)

  function RowContents(rows: seq<ChunkRow>): (r: seq<Content>)
    ensures |r| == |rows|
    ensures forall k :: 0 <= k < |r| ==> r[k] == Content(rows[k].ordinal, rows[k].text, rows[k].page, rows[k].section)
  {
    seq(|rows|, k requires 0 <= k < |rows| => Content(rows[k].ordinal, rows[k].text, rows[k].page, rows[k].section))
  }

  function RecordContents(records: seq<VectorRecord>): (r: seq<(Content, Vector)>)
    ensures |r| == |records|
    ensures forall k :: 0 <= k < |r| ==>
              r[k] == (Content(records[k].payload.ordinal, records[k].payload.text, records[k].payload.page,
                               records[k].payload.section), records[k].vector)
  {
    seq(|records|, k requires 0 <= k < |records| =>
      (Content(records[k].payload.ordinal, records[k].payload.text, records[k].payload.page,
               records[k].payload.section),
       records[k].vector))
  }

  /** From the same bytes and chunking settings, any two successful ingestions leave
      the same contents in rows and index, whatever the states they started from,
      the ids they drew and the batch sizes; the indexes differ only if exactly one of
      the batch sizes is negative. */
  lemma {:induction false} ReprocessingIsIdempotent(
      p: Providers, data: Bytes, s: State, d: nat, settings: Settings, t: State, e: nat, other: Settings)
    requires RecordsOk(s) && d in s.tables.documents && RecordsOk(t) && e in t.tables.documents
    requires s.tables.documents[d].filename == t.tables.documents[e].filename
    requires settings.chunkSize == other.chunkSize && settings.chunkOverlap == other.chunkOverlap
    requires Try(p, s, d, data, settings, NoFault).result.Ok? && Try(p, t, e, data, other, NoFault).result.Ok?
    ensures var a, b := Ingest(p, s, d, data, settings, NoFault), Ingest(p, t, e, data, other, NoFault);
      && RowContents(RowsOf(a.tables.chunks, d)) == RowContents(RowsOf(b.tables.chunks, e))
      && (RecordContents(RecordsOf(a.records, s.tables.documents[d].workspaceId, d))
          == RecordContents(RecordsOf(b.records, t.tables.documents[e].workspaceId, e))
          <==> (settings.batchSize < 0 <==> other.batchSize < 0))
  {
    hide Try, Ingest, RowsOf, RecordsOf, Extracted, RecordsOk;
    IngestedContents(p, s, d, data, settings);
    IngestedContents(p, t, e, data, other);
    SameExtraction(p, s.tables.documents[d].filename, data, settings, other);
    ExtractedChunks(p, s.tables.documents[d].filename, data, settings, NoFault);
  }

  lemma SameExtraction(p: Providers, filename: string, data: Bytes, settings: Settings, other: Settings)
    requires settings.chunkSize == other.chunkSize && settings.chunkOverlap == other.chunkOverlap
    ensures Extracted(p, filename, data, settings, NoFault) == Extracted(p, filename, data, other, NoFault)
  {
    hide ChunkResult;
    assert forall pages :: ChunkResult(pages, settings.chunkSize, settings.chunkOverlap, p.latestSection)
                        == ChunkResult(pages, other.chunkSize, other.chunkOverlap, p.latestSection);
  }

  lemma IngestedContents(p: Providers, s: State, d: nat, data: Bytes, settings: Settings)
    requires RecordsOk(s) && d in s.tables.documents
    requires Try(p, s, d, data, settings, NoFault).result.Ok?
    ensures Extracted(p, s.tables.documents[d].filename, data, settings, NoFault).Ok?
    ensures var after := Ingest(p, s, d, data, settings, NoFault);
      var rows := NewRows(Extracted(p, s.tables.documents[d].filename, data, settings, NoFault).value, 0, 0);
      && RowContents(RowsOf(after.tables.chunks, d)) == RowContents(rows)
      && RecordContents(RecordsOf(after.records, s.tables.documents[d].workspaceId, d))
         == RecordContents(Embedded(rows, 0, p.embed, settings.batchSize))
  {
    hide Try, RecordsOk, Ingest, Succeeded, RowsOf, RecordsOf, Extracted, NewRows, Embedded;
    SuccessfulIngest(p, s, d, data, settings, NoFault);
    SucceededContents(p, s, d, Extracted(p, s.tables.documents[d].filename, data, settings, NoFault).value,
                      settings.batchSize);
  }

  lemma {:induction false} SucceededContents(
      p: Providers, s: State, d: nat, chunks: seq<TextChunk>, batchSize: int)
    requires d in s.tables.documents
    ensures var after := Succeeded(p, s, d, chunks, batchSize);
      && RowContents(RowsOf(after.tables.chunks, d)) == RowContents(NewRows(chunks, 0, 0))
      && RecordContents(RecordsOf(after.records, s.tables.documents[d].workspaceId, d))
         == RecordContents(Embedded(NewRows(chunks, 0, 0), 0, p.embed, batchSize))
  {
    hide RowsOf, RecordsOf, Without, Replaced;
    SucceededContent(p, s, d, chunks, batchSize);
  }

  // ----- Uploading the same content -----

  /** A member's upload is answered with a document exactly when no deleted document
      of the workspace holds the same content; otherwise the unique constraint
      raises and nothing changes. At most one document ever holds it. */
  lemma UploadSucceedsExactlyWhen(
      p: Providers, s: State, h: History, workspaceId: nat, filename: string, data: Bytes, settings: Settings,
      fault: Fault)
    requires Inv(p, s, h)
    ensures var holders := WithChecksum(s, workspaceId, p.digest(data));
      var (after, reply) := Ingestion.Step(p, s, Create(workspaceId, true, filename, data, settings, fault));
      && (forall c, d :: c in holders && d in holders ==> c == d)
      && (reply.Found? <==> forall d :: d in holders ==> !s.tables.documents[d].deleted)
      && (!reply.Found? ==> reply == IntegrityError && after == s)
      && (forall d :: d in holders && !s.tables.documents[d].deleted ==> reply == Found(d) && after == s)
  {
    hide Ingest, DocumentOk, RecordsOk, RowsOk, Consistent;
    var holders := WithChecksum(s, workspaceId, p.digest(data));
    var live := LiveWithChecksum(s, workspaceId, p.digest(data));
    forall c, d | c in holders && d in holders ensures c == d {
      assert HasChecksum(s.tables.documents[c], s.tables.documents[d].workspaceId, s.tables.documents[d].checksum);
    }
    assert forall d :: d in live <==> d in holders && !s.tables.documents[d].deleted;
  }

  // ----- Operations on other documents -----

  /** Ingestion changes no document but its own, and of that neither owner, name,
      content nor deletion. */
  lemma IngestKeepsDocument(
      p: Providers, s: State, documentId: nat, data: Bytes, settings: Settings, fault: Fault)
    requires documentId in s.tables.documents
    ensures var after := Ingest(p, s, documentId, data, settings, fault);
      && after.tables.documents.Keys == s.tables.documents.Keys
      && after.tables.documents[documentId].filename == s.tables.documents[documentId].filename
      && SameDocument(after.tables.documents[documentId], s.tables.documents[documentId])
      && forall d :: d in s.tables.documents && d != documentId ==> after.tables.documents[d] == s.tables.documents[d]
  {
    hide Extracted, Without, PutAll, DropAll, DocumentKeys, Batches, NewRows, Embedded, Texts, Filter, Take;
  }

  /** The operation addresses some other document, or uploads. */
  predicate Spares(op: Op, d: nat) { op.Create? || op.documentId != d }

  lemma IngestSparesRows(
      p: Providers, s: State, documentId: nat, data: Bytes, settings: Settings, fault: Fault, d: nat)
    requires RecordsOk(s) && documentId in s.tables.documents && d != documentId
    ensures RowsOf(Ingest(p, s, documentId, data, settings, fault).tables.chunks, d) == RowsOf(s.tables.chunks, d)
  {
    hide Try, RecordsOk, RowsOf, Extracted;
    if Try(p, s, documentId, data, settings, fault).result.Ok? {
      SuccessfulIngest(p, s, documentId, data, settings, fault);
      var chunks := Extracted(p, s.tables.documents[documentId].filename, data, settings, fault).value;
      ReplacedByDocument(s.tables.chunks, documentId, NewRows(chunks, documentId, s.nextId));
    }
  }

  /** The document and its rows are the same in both states. */
  predicate SameRows(s: State, t: State, d: nat) {
    && d in s.tables.documents && d in t.tables.documents && t.tables.documents[d] == s.tables.documents[d]
    && RowsOf(t.tables.chunks, d) == RowsOf(s.tables.chunks, d)
  }

  lemma IngestSpares(
      p: Providers, s: State, documentId: nat, data: Bytes, settings: Settings, fault: Fault, d: nat)
    requires RecordsOk(s) && documentId in s.tables.documents && d in s.tables.documents && d != documentId
    ensures SameRows(s, Ingest(p, s, documentId, data, settings, fault), d)
  {
    hide Ingest, RecordsOk, RowsOf;
    IngestKeepsDocument(p, s, documentId, data, settings, fault);
    IngestSparesRows(p, s, documentId, data, settings, fault, d);
  }

  lemma SameRowsSelf(s: State, d: nat)
    requires d in s.tables.documents
    ensures SameRows(s, s, d)
  {
  }

  lemma SameRowsThrough(s: State, t: State, u: State, d: nat)
    requires SameRows(s, t, d) && SameRows(t, u, d)
    ensures SameRows(s, u, d)
  {
  }

  lemma RegisterSpares(
      p: Providers, s: State, h: History, workspaceId: nat, filename: string, data: Bytes, d: nat)
    requires Inv(p, s, h) && d in s.tables.documents
    ensures d != s.nextId && RecordsOk(Registered(s, p, workspaceId, filename, data))
    ensures SameRows(s, Registered(s, p, workspaceId, filename, data), d)
  {
    NextIdIsNew(p, s, h);
    RegisterKeepsRecords(p, s, workspaceId, filename, data);
    hide Inv, RecordsOk, RowsOf;
  }

  lemma CreateSpares(
      p: Providers, s: State, h: History, workspaceId: nat, isMember: bool, filename: string, data: Bytes,
      settings: Settings, fault: Fault, d: nat)
    requires Inv(p, s, h) && d in s.tables.documents
    ensures SameRows(s, Ingestion.Step(p, s, Create(workspaceId, isMember, filename, data, settings, fault)).0, d)
  {
    hide Inv, Ingest, RecordsOk, Registered, SameRows, WithChecksum, LiveWithChecksum;
    SameRowsSelf(s, d);
    var registered := Registered(s, p, workspaceId, filename, data);
    RegisterSpares(p, s, h, workspaceId, filename, data, d);
    RegisteredHas(p, s, workspaceId, filename, data, d);
    IngestSpares(p, registered, s.nextId, data, settings, fault, d);
    SameRowsThrough(s, registered, Ingest(p, registered, s.nextId, data, settings, fault), d);
  }

  lemma RegisteredHas(
      p: Providers, s: State, workspaceId: nat, filename: string, data: Bytes, d: nat)
    requires d in s.tables.documents
    ensures s.nextId in Registered(s, p, workspaceId, filename, data).tables.documents
    ensures d in Registered(s, p, workspaceId, filename, data).tables.documents
  {
  }

  lemma DeleteSpares(p: Providers, s: State, workspaceId: nat, isMember: bool, documentId: nat, d: nat)
    requires d in s.tables.documents && d != documentId
    ensures SameRows(s, Ingestion.Step(p, s, Ingestion.Delete(workspaceId, isMember, documentId)).0, d)
  {
    hide RowsOf, Without;
  }

  /** An operation that spares the document leaves it and its rows as they are. */
  lemma StepSpares(p: Providers, s: State, h: History, op: Op, d: nat)
    requires Inv(p, s, h) && d in s.tables.documents && Spares(op, d)
    ensures SameRows(s, Ingestion.Step(p, s, op).0, d)
  {
    hide Inv, Ingest, RecordsOk, SameRows, Registered, WithChecksum, LiveWithChecksum, Without;
    InvRecords(p, s, h);
    SameRowsSelf(s, d);
    match op
    case Create(workspaceId, isMember, filename, data, settings, fault) =>
      CreateSpares(p, s, h, workspaceId, isMember, filename, data, settings, fault, d);
    case Delete(workspaceId, isMember, documentId) =>
      DeleteSpares(p, s, workspaceId, isMember, documentId, d);
    case Reprocess(_, _, documentId, settings, fault) =>
      if Ingestion.Step(p, s, op).0 != s {
        IngestSpares(p, s, documentId, s.files[documentId], settings, fault, d);
      }
    case Job(documentId, settings, fault) =>
      if Ingestion.Step(p, s, op).0 != s {
        IngestSpares(p, s, documentId, s.files[documentId], settings, fault, d);
      }
  }

  lemma InvRecords(p: Providers, s: State, h: History)
    requires Inv(p, s, h)
    ensures RecordsOk(s)
  {
  }

  lemma {:induction false} RunSpares(p: Providers, s: State, h: History, ops: seq<Op>, d: nat)
    requires Inv(p, s, h) && d in s.tables.documents && forall k :: 0 <= k < |ops| ==> Spares(ops[k], d)
    ensures SameRows(s, RunFrom(p, s, ops), d)
    decreases |ops|
  {
    hide Inv, RowsOf, Ingestion.Step;
    if ops != [] {
      var before := ops[..|ops| - 1];
      RunSpares(p, s, h, before, d);
      RunFromKeepsInv(p, s, h, before);
      StepSpares(p, RunFrom(p, s, before), HistoryFrom(p, s, h, before), ops[|ops| - 1], d);
    }
  }

  // ----- Short runs that reach each exception -----

  /** The first upload of a run becomes document 0, and its ingestion is the step. */
  lemma FirstUpload(
      p: Providers, workspaceId: nat, filename: string, data: Bytes, settings: Settings, fault: Fault)
    ensures var op := Create(workspaceId, true, filename, data, settings, fault);
      var registered := Registered(Start(), p, workspaceId, filename, data);
      Ingestion.Step(p, Start(), op)
      == (if settings.ingestEager then Ingest(p, registered, 0, data, settings, fault) else registered, Found(0))
  {
    hide Ingest;
    assert WithChecksum(Start(), workspaceId, p.digest(data)) == {};
    assert LiveWithChecksum(Start(), workspaceId, p.digest(data)) == {};
  }

  lemma TwoSteps(p: Providers, first: Op, second: Op)
    ensures Ingestion.Run(p, [first]) == Ingestion.Step(p, Start(), first).0
    ensures Ingestion.Run(p, [first, second]) == Ingestion.Step(p, Ingestion.Run(p, [first]), second).0
  {
    hide Ingestion.Step;
    var none: seq<Op> := [];
    assert [first, second][..1] == [first] && [first][..0] == none;
    assert RunFrom(p, Start(), none) == Start();
  }

  /** Upload, delete, upload again: the unique constraint raises. */
  lemma ReuploadAfterDeletionRaises(
      p: Providers, workspaceId: nat, filename: string, data: Bytes, settings: Settings, fault: Fault)
    ensures var upload := Create(workspaceId, true, filename, data, settings, fault);
      var s := Ingestion.Run(p, [upload, Ingestion.Delete(workspaceId, true, 0)]);
      Ingestion.Step(p, s, upload) == (s, IntegrityError)
  {
    hide Ingest, Without;
    var upload := Create(workspaceId, true, filename, data, settings, fault);
    FirstUpload(p, workspaceId, filename, data, settings, fault);
    TwoSteps(p, upload, Ingestion.Delete(workspaceId, true, 0));
    IngestKeepsDocument(p, Registered(Start(), p, workspaceId, filename, data), 0, data, settings, fault);
    var s := Ingestion.Run(p, [upload, Ingestion.Delete(workspaceId, true, 0)]);
    assert s.tables.documents.Keys == {0};
    assert 0 in WithChecksum(s, workspaceId, p.digest(data));
    assert LiveWithChecksum(s, workspaceId, p.digest(data)) == {};
  }

  /** An upload with a negative batch size ends indexed, with rows and no vector. */
  lemma {:induction false} NegativeBatchRun(
      p: Providers, workspaceId: nat, filename: string, data: Bytes, settings: Settings)
    requires settings.ingestEager && settings.batchSize < 0
    requires Extracted(p, filename, data, settings, NoFault).Ok?
    ensures var s := Ingestion.Run(p, [Create(workspaceId, true, filename, data, settings, NoFault)]);
      && 0 in s.tables.documents && s.tables.documents[0].status == Indexed
      && s.records == [] && RowsOf(s.tables.chunks, 0) != [] && !Mirrored(p, s, 0)
  {
    hide Extracted, Ingest, Try, Inv, RowsOf, RecordsOf;
    var upload := Create(workspaceId, true, filename, data, settings, NoFault);
    var registered := Registered(Start(), p, workspaceId, filename, data);
    FirstUpload(p, workspaceId, filename, data, settings, NoFault);
    TwoSteps(p, upload, upload);
    SucceedsExactlyWhen(p, registered, 0, data, settings);
    SuccessfulIngest(p, registered, 0, data, settings, NoFault);
    ExtractedChunks(p, filename, data, settings, NoFault);
    var chunks := Extracted(p, filename, data, settings, NoFault).value;
    ReplacedByDocument([], 0, NewRows(chunks, 0, 1));
    EmptyFilters(0);
  }

  lemma EmptyFilters(d: nat)
    ensures Without([], 0, d) == [] && forall w: nat :: Without([], w, d) == [] && RecordsOf([], w, d) == []
  {
  }

  /** Index a document, then let a reprocessing fail at its commit: the document is
      failed with chunk count 0, and its rows are all still there. */
  lemma {:induction false} FailedReplayRun(
      p: Providers, workspaceId: nat, filename: string, data: Bytes, settings: Settings, error: string)
    requires settings.ingestEager && settings.batchSize >= 1
    requires Extracted(p, filename, data, settings, NoFault).Ok?
    ensures var upload := Create(workspaceId, true, filename, data, settings, NoFault);
      var s := Ingestion.Run(p, [upload, Reprocess(workspaceId, true, 0, settings, Fault(AtCommit, error))]);
      && 0 in s.tables.documents && s.tables.documents[0].status == Failed
      && s.tables.documents[0].chunkCount == 0 && RowsOf(s.tables.chunks, 0) != []
  {
    hide Extracted, Ingest, Try, Inv, RowsOf, Ingestion.Run;
    var upload := Create(workspaceId, true, filename, data, settings, NoFault);
    var fault := Fault(AtCommit, error);
    var replay := Reprocess(workspaceId, true, 0, settings, fault);
    var registered := Registered(Start(), p, workspaceId, filename, data);
    FirstUpload(p, workspaceId, filename, data, settings, NoFault);
    TwoSteps(p, upload, replay);
    SucceedsExactlyWhen(p, registered, 0, data, settings);
    SuccessfulIngest(p, registered, 0, data, settings, NoFault);
    ExtractedChunks(p, filename, data, settings, NoFault);
    ReplacedByDocument([], 0, NewRows(Extracted(p, filename, data, settings, NoFault).value, 0, 1));
    var indexed := Ingestion.Run(p, [upload]);
    IngestKeepsDocument(p, registered, 0, data, settings, NoFault);
    RunKeepsInv(p, [upload]);
    CommitFails(p, indexed, 0, data, settings, error);
    InvRecords(p, indexed, HistoryOf(p, [upload]));
    FailureLeftovers(p, indexed, 0, data, settings, fault);
  }

  lemma CommitFails(
      p: Providers, s: State, documentId: nat, data: Bytes, settings: Settings, error: string)
    requires documentId in s.tables.documents
    ensures Try(p, s, documentId, data, settings, Fault(AtCommit, error)).result.Err?
  {
    hide Extracted, Without, PutAll, DropAll, DocumentKeys, Batches, NewRows, Embedded, Texts, Filter, Take;
  }
}
