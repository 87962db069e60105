/** What the operations on documents do, in the terms of those who call them: which
    rows and vectors an ingestion leaves, when it succeeds, what the reply to an upload
    names, and whom deletion and reprocessing obey. */
module Lifecycle {
  import opened Chunker
  import opened IndexAgreement
  import opened Ingestion
  import opened Lists
  import opened Ranking
  import opened Vectors
  import opened VectorStore
  import opened Wrappers

  // ----- What an ingestion leaves -----

  /** Rows, vectors and document after an ingestion that got to its commit: one row for
      every chunk of the extracted pages, with the chunk's number, text, token count,
      page and section; and unless the batch size is negative one vector for every row. */
  lemma IngestedDocument(p: Providers, s: State, d: nat, data: Bytes, settings: Settings, fault: Fault)
    requires RecordsOk(s) && d in s.tables.documents
    requires Try(p, s, d, data, settings, fault).result.Ok?
    ensures var document := s.tables.documents[d];
      var pages := p.extract(document.filename, data);
      && pages.Ok? && ChunkResult(pages.value, settings.chunkSize, settings.chunkOverlap, p.latestSection).Ok?
      && var cs := ChunkResult(pages.value, settings.chunkSize, settings.chunkOverlap, p.latestSection).value;
         var after := Ingest(p, s, d, data, settings, fault);
         var rows := RowsOf(after.tables.chunks, d);
         var records := RecordsOf(after.records, document.workspaceId, d);
         && |rows| == |cs| >= 1
         && (forall k :: 0 <= k < |cs| ==>
               && rows[k].documentId == d && rows[k].ordinal == cs[k].ordinal && rows[k].text == cs[k].text
               && rows[k].tokenCount == cs[k].tokenCount && rows[k].page == cs[k].page
               && rows[k].section == cs[k].section && s.nextId <= rows[k].id < after.nextId)
         && |records| == (if settings.batchSize < 0 then 0 else |cs|)
         && (forall k :: 0 <= k < |records| ==>
               && records[k].id == rows[k].id && records[k].vector == p.embed(cs[k].text)
               && records[k].payload == Payload(document.workspaceId, d, rows[k].id, cs[k].ordinal, cs[k].page,
                                                cs[k].section, cs[k].text))
         && after.tables.documents[d]
            == Document(document.workspaceId, document.filename, document.checksum, Indexed, None, |cs|,
                        document.deleted)
  {
    SuccessfulIngest(p, s, d, data, settings, fault);
    var filename := s.tables.documents[d].filename;
    ExtractedIsChunked(p, filename, data, settings, fault);
    var chunks := Extracted(p, filename, data, settings, fault).value;
    hide Try, Ingest, RecordsOk, Extracted, ChunkResult;
    SucceededDetails(p, s, d, chunks, settings.batchSize);
  }

  lemma ExtractedIsChunked(p: Providers, filename: string, data: Bytes, settings: Settings, fault: Fault)
    requires Extracted(p, filename, data, settings, fault).Ok?
    ensures var pages := p.extract(filename, data);
      && pages.Ok?
      && ChunkResult(pages.value, settings.chunkSize, settings.chunkOverlap, p.latestSection)
         == Extracted(p, filename, data, settings, fault)
      && Extracted(p, filename, data, settings, fault).value != []
  {
    hide ChunkResult;
  }

  lemma SucceededDetails(p: Providers, s: State, d: nat, cs: seq<TextChunk>, batchSize: int)
    requires d in s.tables.documents
    ensures var document, after := s.tables.documents[d], Succeeded(p, s, d, cs, batchSize);
      var rows := RowsOf(after.tables.chunks, d);
      var records := RecordsOf(after.records, document.workspaceId, d);
      && |rows| == |cs|
      && (forall k :: 0 <= k < |cs| ==>
            && rows[k].documentId == d && rows[k].ordinal == cs[k].ordinal && rows[k].text == cs[k].text
            && rows[k].tokenCount == cs[k].tokenCount && rows[k].page == cs[k].page
            && rows[k].section == cs[k].section && s.nextId <= rows[k].id < after.nextId)
      && |records| == (if batchSize < 0 then 0 else |cs|)
      && (forall k :: 0 <= k < |records| ==>
            && records[k].id == rows[k].id && records[k].vector == p.embed(cs[k].text)
            && records[k].payload == Payload(document.workspaceId, d, rows[k].id, cs[k].ordinal, cs[k].page,
                                             cs[k].section, cs[k].text))
      && after.tables.documents[d]
         == Document(document.workspaceId, document.filename, document.checksum, Indexed, None, |cs|, document.deleted)
  {
    hide RowsOf, RecordsOf, Without, Replaced;
    SucceededContent(p, s, d, cs, batchSize);
  }

  /** An undisturbed ingestion succeeds exactly when the extractor does, some extracted
      page is not blank, the chunk size is positive and the batch size is not zero. */
  lemma IngestionSucceeds(p: Providers, s: State, d: nat, data: Bytes, settings: Settings)
    requires d in s.tables.documents
    ensures var pages := p.extract(s.tables.documents[d].filename, data);
      Ingest(p, s, d, data, settings, NoFault).tables.documents[d].status == Indexed
      <==> pages.Ok? && (exists q :: 0 <= q < |pages.value| && HasInk(pages.value[q]))
           && settings.chunkSize > 0 && settings.batchSize != 0
  {
    var filename := s.tables.documents[d].filename;
    SucceedsExactlyWhen(p, s, d, data, settings);
    IngestStatus(p, s, d, data, settings, NoFault);
    hide Try, Ingest, HasInk, AllChunks;
    if settings.chunkSize > 0 && p.extract(filename, data).Ok? {
      ChunksExist(p.extract(filename, data).value, settings.chunkSize,
                  Chunker.Step(settings.chunkSize, settings.chunkOverlap), p.latestSection);
    }
  }

  lemma IngestStatus(p: Providers, s: State, d: nat, data: Bytes, settings: Settings, fault: Fault)
    requires d in s.tables.documents
    ensures Ingest(p, s, d, data, settings, fault).tables.documents[d].status
         == if Try(p, s, d, data, settings, fault).result.Ok? then Indexed else Failed
  {
    hide Extracted, Without, PutAll, DropAll, DocumentKeys, Batches, NewRows, Embedded, Texts, Filter, Take;
  }

  /** The error an undisturbed failure records. */
  lemma UndisturbedError(p: Providers, s: State, d: nat, data: Bytes, settings: Settings)
    requires d in s.tables.documents
    requires Try(p, s, d, data, settings, NoFault).result.Err?
    ensures var pages := p.extract(s.tables.documents[d].filename, data);
      Ingest(p, s, d, data, settings, NoFault).tables.documents[d].error
      == Some(if pages.Err? then pages.error
              else if settings.chunkSize <= 0 then "chunk size must be positive"
              else if forall q :: 0 <= q < |pages.value| ==> !HasInk(pages.value[q])
              then "no extractable text found in document"
              else "range() arg 3 must not be zero")
  {
    var filename := s.tables.documents[d].filename;
    SucceedsExactlyWhen(p, s, d, data, settings);
    hide HasInk, AllChunks, Without, PutAll, DropAll, DocumentKeys, Cut, NewRows, Embedded, Texts, Filter, Take;
    if settings.chunkSize > 0 && p.extract(filename, data).Ok? {
      ChunksExist(p.extract(filename, data).value, settings.chunkSize,
                  Chunker.Step(settings.chunkSize, settings.chunkOverlap), p.latestSection);
    }
  }

  /** If an ingestion would have succeeded, a fault makes it fail, with the fault's error,
      exactly unless it strikes in an embedding batch that does not exist. */
  lemma FaultStrikes(p: Providers, s: State, d: nat, data: Bytes, settings: Settings, fault: Fault)
    requires d in s.tables.documents && fault.Fault?
    requires Try(p, s, d, data, settings, NoFault).result.Ok?
    ensures var pages := p.extract(s.tables.documents[d].filename, data);
      && pages.Ok? && ChunkResult(pages.value, settings.chunkSize, settings.chunkOverlap, p.latestSection).Ok?
      && var total := |ChunkResult(pages.value, settings.chunkSize, settings.chunkOverlap, p.latestSection).value|;
         var result := Try(p, s, d, data, settings, fault).result;
         && (result.Ok? <==>
               fault.stage.AtEmbed? && (settings.batchSize < 0 || fault.stage.batch * settings.batchSize >= total))
         && (result.Err? ==> result.error == fault.error)
  {
    var filename := s.tables.documents[d].filename;
    SucceedsExactlyWhen(p, s, d, data, settings);
    ExtractedIsChunked(p, filename, data, settings, NoFault);
    LaterFault(p, filename, data, settings, fault);
    hide Extracted, Index, ChunkResult, DropAll, DocumentKeys;
    if !fault.stage.AtExtract? && !fault.stage.AtRowDelete? && !fault.stage.AtVectorDelete? {
      FaultStrikesIndex(p, s, d, Extracted(p, filename, data, settings, NoFault).value, settings, fault);
    }
  }

  lemma LaterFault(p: Providers, filename: string, data: Bytes, settings: Settings, fault: Fault)
    requires fault.Fault?
    ensures Extracted(p, filename, data, settings, fault)
         == if fault.stage.AtExtract? then Err(fault.error) else Extracted(p, filename, data, settings, NoFault)
  {
    hide ChunkResult;
  }

  lemma FaultStrikesIndex(
      p: Providers, s: State, d: nat, cs: seq<TextChunk>, settings: Settings, fault: Fault)
    requires d in s.tables.documents && settings.batchSize != 0 && fault.Fault?
    requires !fault.stage.AtExtract? && !fault.stage.AtRowDelete? && !fault.stage.AtVectorDelete?
    ensures var result := Index(p, s, d, cs, settings, fault).result;
      && (result.Ok? <==>
            fault.stage.AtEmbed? && (settings.batchSize < 0 || fault.stage.batch * settings.batchSize >= |cs|))
      && (result.Err? ==> result.error == fault.error)
  {
    if settings.batchSize > 0 && fault.stage.AtEmbed? {
      CutLength(Texts(NewRows(cs, d, s.nextId)), settings.batchSize, fault.stage.batch);
    }
    hide Without, PutAll, Cut, Filter, RecordsFor, Take;
  }

  // ----- What an upload leaves -----

  /** The reply to a member's upload of content the workspace has never held names a
      new document that has the uploaded name and content, whatever its ingestion does;
      all other documents and files stay as they are. */
  lemma NewUploadIsNamed(
      p: Providers, s: State, h: History, workspaceId: nat, filename: string, data: Bytes, settings: Settings,
      fault: Fault)
    requires Inv(p, s, h)
    requires forall d :: d in s.tables.documents ==>
               s.tables.documents[d].workspaceId != workspaceId || s.tables.documents[d].checksum != p.digest(data)
    ensures var (after, reply) :=
        Ingestion.Step(p, s, Create(workspaceId, true, filename, data, settings, fault));
      && reply.Found? && reply.documentId !in s.tables.documents && reply.documentId !in s.files
      && reply.documentId in after.tables.documents
      && after.files == s.files[reply.documentId := data]
      && after.tables.documents.Keys == s.tables.documents.Keys + {reply.documentId}
      && (forall d :: d in s.tables.documents ==> after.tables.documents[d] == s.tables.documents[d])
      && var document := after.tables.documents[reply.documentId];
         && document.workspaceId == workspaceId && document.filename == filename
         && document.checksum == p.digest(data) && !document.deleted
         && (!settings.ingestEager ==> document.status == Queued && after.records == s.records)
         && (settings.ingestEager ==> document.status == Indexed || document.status == Failed)
  {
    NextIdIsNew(p, s, h);
    NobodyHolds(s, workspaceId, p.digest(data));
    var registered := Registered(s, p, workspaceId, filename, data);
    hide Inv, Ingest, WithChecksum, LiveWithChecksum, Try;
    IngestKeepsDocument(p, registered, s.nextId, data, settings, fault);
    IngestStatus(p, registered, s.nextId, data, settings, fault);
  }

  lemma NobodyHolds(s: State, workspaceId: nat, checksum: string)
    requires forall d :: d in s.tables.documents ==>
               s.tables.documents[d].workspaceId != workspaceId || s.tables.documents[d].checksum != checksum
    ensures WithChecksum(s, workspaceId, checksum) == {} && LiveWithChecksum(s, workspaceId, checksum) == {}
  {
  }

  // ----- Whom the operations obey -----

  /** Strangers, other workspaces and callers of deleted documents get "not found" and
      change nothing; nobody else does. */
  lemma AccessExact(p: Providers, s: State, workspaceId: nat, isMember: bool, d: nat, settings: Settings, fault: Fault)
    ensures var allowed := isMember && d in s.tables.documents && !s.tables.documents[d].deleted
                           && s.tables.documents[d].workspaceId == workspaceId;
      var (deleted, reply) := Ingestion.Step(p, s, Ingestion.Delete(workspaceId, isMember, d));
      var (replayed, answer) := Ingestion.Step(p, s, Reprocess(workspaceId, isMember, d, settings, fault));
      && (reply == NotFound <==> !allowed) && (!allowed ==> deleted == s)
      && (answer == NotFound <==> !allowed) && (!allowed ==> replayed == s)
      && (allowed && d !in s.files ==> answer == NoFile && replayed == s)
      && (allowed && d in s.files ==>
            answer == Found(d) && replayed == Ingest(p, s, d, s.files[d], settings, fault))
      && (allowed ==>
            && reply == Found(d)
            && deleted.tables.documents == s.tables.documents[d := s.tables.documents[d].(deleted := true)]
            && deleted.tables.chunks == s.tables.chunks && deleted.files == s.files
            && RecordsOf(deleted.records, workspaceId, d) == [])
  {
    hide Ingest;
    OwnRecords(s.records, workspaceId, d, []);
    var kept := Without(s.records, workspaceId, d);
    assert kept + [] == kept;
    hide Without, RecordsOf;
  }

  lemma StrangersCannotUpload(
      p: Providers, s: State, workspaceId: nat, filename: string, data: Bytes, settings: Settings, fault: Fault)
    ensures Ingestion.Step(p, s, Create(workspaceId, false, filename, data, settings, fault)) == (s, NotFound)
  {
  }

  /** A background job touches a document exactly when it exists, is not deleted and has a file. */
  lemma JobExact(p: Providers, s: State, d: nat, settings: Settings, fault: Fault)
    ensures var (after, reply) := Ingestion.Step(p, s, Job(d, settings, fault));
      if d !in s.tables.documents || s.tables.documents[d].deleted then reply == Skipped && after == s
      else if d !in s.files then reply == NoFile && after == s
      else reply == Found(d) && after == Ingest(p, s, d, s.files[d], settings, fault)
  {
  }

  // ----- Deletion is final -----

  lemma StepKeepsDeleted(p: Providers, s: State, h: History, op: Op, d: nat)
    requires Inv(p, s, h) && d in s.tables.documents && s.tables.documents[d].deleted
    ensures var after := Ingestion.Step(p, s, op).0;
      d in after.tables.documents && after.tables.documents[d] == s.tables.documents[d]
  {
    if Spares(op, d) {
      StepSpares(p, s, h, op, d);
    } else {
      hide Ingest, Without, Inv;
    }
  }

  /** A deleted document stays as it is over any run. */
  lemma {:induction false} DeletionIsFinal(p: Providers, s: State, h: History, ops: seq<Op>, d: nat)
    requires Inv(p, s, h) && d in s.tables.documents && s.tables.documents[d].deleted
    ensures d in RunFrom(p, s, ops).tables.documents
    ensures RunFrom(p, s, ops).tables.documents[d] == s.tables.documents[d]
    decreases |ops|
  {
    hide Inv, Ingestion.Step;
    if ops != [] {
      var before := ops[..|ops| - 1];
      DeletionIsFinal(p, s, h, before, d);
      RunFromKeepsInv(p, s, h, before);
      StepKeepsDeleted(p, RunFrom(p, s, before), HistoryFrom(p, s, h, before), ops[|ops| - 1], d);
    }
  }
}
