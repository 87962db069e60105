/** The document lifecycle as a state machine: upload, ingestion with a failure at
    any statement of its `try`, reprocessing and deletion
    (app/services/ingestion/pipeline.py, app/services/document_service.py). */
module Ingestion {
  import opened Chunker
  import opened Lists
  import opened Ranking
  import opened Vectors
  import opened VectorStore
  import opened Wrappers

  type Bytes = seq<int>

  datatype Status = Queued | Processing | Indexed | Failed

  datatype Document = Document(
    workspaceId: nat, filename: string, checksum: string,
    status: Status, error: Option<string>, chunkCount: nat, deleted: bool)

  datatype ChunkRow = ChunkRow(
    id: nat, documentId: nat, ordinal: nat, text: string, tokenCount: nat, page: Option<int>, section: Option<string>)

  /** The transactional tables; `rollback` restores them. */
  datatype Tables = Tables(documents: map<nat, Document>, chunks: seq<ChunkRow>)

  /** Committed tables, stored uploads, the vector index (which never rolls back),
      and the source of new ids that stands for uuid4. */
  datatype State = State(tables: Tables, files: map<nat, Bytes>, records: seq<VectorRecord>, nextId: nat)

  datatype Providers = Providers(
    extract: (string, Bytes) -> Result<seq<Page>>,
    latestSection: string -> Option<string>,
    embed: string -> Vector,
    digest: Bytes -> string)

  datatype Settings = Settings(chunkSize: int, chunkOverlap: int, batchSize: int, ingestEager: bool)

  /** Where an exception strikes inside the `try`; the two vector operations can
      stop part-way. */
  datatype Stage =
    | AtExtract
    | AtRowDelete
    | AtVectorDelete(done: nat)
    | AtFlush
    | AtEnsureReady
    | AtEmbed(batch: nat)
    | AtUpsert(done: nat)
    | AtCommit

  datatype Fault = NoFault | Fault(stage: Stage, error: string)

  predicate Strikes(fault: Fault, stage: Stage) { fault.Fault? && fault.stage == stage }

  // ----- Building blocks -----

  function InDocument(documentId: nat): ChunkRow -> bool { (row: ChunkRow) => row.documentId == documentId }

  function NotInDocument(documentId: nat): ChunkRow -> bool { (row: ChunkRow) => row.documentId != documentId }

  function RowsOf(chunks: seq<ChunkRow>, documentId: nat): seq<ChunkRow> { Filter(chunks, InDocument(documentId)) }

  function RecordsOf(records: seq<VectorRecord>, workspaceId: nat, documentId: nat): seq<VectorRecord> {
    Filter(records, PartOf(workspaceId, documentId))
  }

  function NewRow(chunk: TextChunk, documentId: nat, id: nat): ChunkRow {
    ChunkRow(id, documentId, chunk.ordinal, chunk.text, chunk.tokenCount, chunk.page, chunk.section)
  }

  function NewRows(chunks: seq<TextChunk>, documentId: nat, firstId: nat): (rows: seq<ChunkRow>)
    ensures |rows| == |chunks|
    ensures forall k :: 0 <= k < |rows| ==> rows[k] == NewRow(chunks[k], documentId, firstId + k)
  {
    seq(|chunks|, k requires 0 <= k < |chunks| => NewRow(chunks[k], documentId, firstId + k))
  }

  function RecordFor(row: ChunkRow, workspaceId: nat, embed: string -> Vector): VectorRecord {
    VectorRecord(row.id, embed(row.text),
                 Payload(workspaceId, row.documentId, row.id, row.ordinal, row.page, row.section, row.text))
  }

  /** One record per row, in row order. */
  function RecordsFor(rows: seq<ChunkRow>, workspaceId: nat, embed: string -> Vector): (records: seq<VectorRecord>)
    ensures |records| == |rows|
    ensures forall k :: 0 <= k < |rows| ==> records[k] == RecordFor(rows[k], workspaceId, embed)
  {
    seq(|rows|, k requires 0 <= k < |rows| => RecordFor(rows[k], workspaceId, embed))
  }

  /** What the embedding loop collects: a negative batch size yields no batch at all. */
  function Embedded(rows: seq<ChunkRow>, workspaceId: nat, embed: string -> Vector, batchSize: int): seq<VectorRecord> {
    if batchSize < 0 then [] else RecordsFor(rows, workspaceId, embed)
  }

  function Texts(rows: seq<ChunkRow>): (texts: seq<string>)
    ensures |texts| == |rows| && forall k :: 0 <= k < |rows| ==> texts[k] == rows[k].text
  {
    seq(|rows|, k requires 0 <= k < |rows| => rows[k].text)
  }

  /** `[items[i : i + size] for i in range(0, len(items), size)]`: a zero step
      raises, a negative one yields nothing. */
  function Batches(items: seq<string>, size: int): Result<seq<seq<string>>> {
    if size == 0 then Err("range() arg 3 must not be zero")
    else if size < 0 then Ok([])
    else Ok(Cut(items, size))
  }

  function Cut(items: seq<string>, size: nat): seq<seq<string>>
    requires size > 0
    decreases |items|
  {
    if items == [] then [] else [Take(items, size)] + (if |items| <= size then [] else Cut(items[size..], size))
  }

  // ----- Ingestion -----

  /** What the `try` block leads to: either new tables to commit or an error, with
      the vector records and the id source as they then are. */
  datatype Attempt = Attempt(result: Result<Tables>, records: seq<VectorRecord>, nextId: nat)

  function Extracted(
      p: Providers, filename: string, data: Bytes, settings: Settings, fault: Fault): Result<seq<TextChunk>> {
    if Strikes(fault, AtExtract) then Err(fault.error)
    else
      match p.extract(filename, data)
      case Err(error) => Err(error)
      case Ok(pages) =>
        match ChunkResult(pages, settings.chunkSize, settings.chunkOverlap, p.latestSection)
        case Err(error) => Err(error)
        case Ok(chunks) => if chunks == [] then Err("no extractable text found in document") else Ok(chunks)
  }

  function Try(p: Providers, s: State, documentId: nat, data: Bytes, settings: Settings, fault: Fault)
    : (attempt: Attempt)
    requires documentId in s.tables.documents
    ensures attempt.result.Ok? ==> documentId in attempt.result.value.documents
  {
    var document := s.tables.documents[documentId];
    match Extracted(p, document.filename, data, settings, fault)
    case Err(error) => Attempt(Err(error), s.records, s.nextId)
    case Ok(chunks) =>
      if Strikes(fault, AtRowDelete) then Attempt(Err(fault.error), s.records, s.nextId)
      else if fault.Fault? && fault.stage.AtVectorDelete? then
        var keys := Take(DocumentKeys(s.records, document.workspaceId, documentId), fault.stage.done);
        Attempt(Err(fault.error), DropAll(s.records, keys), s.nextId)
      else
        Index(p, s, documentId, chunks, settings, fault)
  }

  /** From the insertion of the new rows on; the old vectors are gone by now. */
  function Index(p: Providers, s: State, documentId: nat, chunks: seq<TextChunk>, settings: Settings, fault: Fault)
    : (attempt: Attempt)
    requires documentId in s.tables.documents
    ensures attempt.result.Ok? ==> documentId in attempt.result.value.documents
  {
    var document := s.tables.documents[documentId];
    var cleared := Without(s.records, document.workspaceId, documentId);
    var rows := NewRows(chunks, documentId, s.nextId);
    var nextId := s.nextId + |chunks|;
    var batches := Batches(Texts(rows), settings.batchSize);
    if Strikes(fault, AtFlush) || Strikes(fault, AtEnsureReady) then Attempt(Err(fault.error), cleared, nextId)
    else if batches.Err? then Attempt(Err(batches.error), cleared, nextId)
    else if fault.Fault? && fault.stage.AtEmbed? && fault.stage.batch < |batches.value| then
      Attempt(Err(fault.error), cleared, nextId)
    else
      var records := Embedded(rows, document.workspaceId, p.embed, settings.batchSize);
      if fault.Fault? && fault.stage.AtUpsert? then
        Attempt(Err(fault.error), PutAll(cleared, Take(records, fault.stage.done)), nextId)
      else
        var done := PutAll(cleared, records);
        if Strikes(fault, AtCommit) then Attempt(Err(fault.error), done, nextId)
        else
          var indexed := document.(status := Indexed, error := None, chunkCount := |rows|);
          Attempt(Ok(Tables(s.tables.documents[documentId := indexed],
                            Filter(s.tables.chunks, NotInDocument(documentId)) + rows)),
                  done, nextId)
  }

  /** `run_ingestion`: on an error the tables roll back to the last commit and the
      document is marked as failed; the vectors stay as they are. */
  function Ingest(p: Providers, s: State, documentId: nat, data: Bytes, settings: Settings, fault: Fault)
    : (after: State)
    requires documentId in s.tables.documents
    ensures documentId in after.tables.documents && after.files == s.files
  {
    var attempt := Try(p, s, documentId, data, settings, fault);
    match attempt.result
    case Ok(tables) => State(tables, s.files, attempt.records, attempt.nextId)
    case Err(error) =>
      var failed := s.tables.documents[documentId].(status := Failed, error := Some(error), chunkCount := 0);
      State(s.tables.(documents := s.tables.documents[documentId := failed]), s.files, attempt.records, attempt.nextId)
  }

  // ----- The operations -----

  datatype Op =
    | Create(workspaceId: nat, isMember: bool, filename: string, data: Bytes, settings: Settings, fault: Fault)
    | Delete(workspaceId: nat, isMember: bool, documentId: nat)
    | Reprocess(workspaceId: nat, isMember: bool, documentId: nat, settings: Settings, fault: Fault)
    | Job(documentId: nat, settings: Settings, fault: Fault)

  datatype Reply = Found(documentId: nat) | NotFound | IntegrityError | NoFile | Skipped

  /** `_get_by_checksum` skips deleted documents; the unique constraint does not. */
  predicate HasChecksum(document: Document, workspaceId: nat, checksum: string) {
    document.workspaceId == workspaceId && document.checksum == checksum
  }

  function WithChecksum(s: State, workspaceId: nat, checksum: string): set<nat> {
    set d | d in s.tables.documents && HasChecksum(s.tables.documents[d], workspaceId, checksum)
  }

  function LiveWithChecksum(s: State, workspaceId: nat, checksum: string): set<nat> {
    set d | d in s.tables.documents && HasChecksum(s.tables.documents[d], workspaceId, checksum)
            && !s.tables.documents[d].deleted
  }

  predicate Visible(s: State, workspaceId: nat, documentId: nat) {
    && documentId in s.tables.documents
    && !s.tables.documents[documentId].deleted && s.tables.documents[documentId].workspaceId == workspaceId
  }

  function Registered(s: State, p: Providers, workspaceId: nat, filename: string, data: Bytes): State {
    var document := Document(workspaceId, filename, p.digest(data), Queued, None, 0, false);
    s.(tables := s.tables.(documents := s.tables.documents[s.nextId := document]),
       files := s.files[s.nextId := data], nextId := s.nextId + 1)
  }

  function Step(p: Providers, s: State, op: Op): (State, Reply) {
    match op
    case Create(workspaceId, isMember, filename, data, settings, fault) =>
      var live := LiveWithChecksum(s, workspaceId, p.digest(data));
      if !isMember then (s, NotFound)
      else if live != {} then (s, Found(Pick(live)))
      else if WithChecksum(s, workspaceId, p.digest(data)) != {} then (s, IntegrityError)
      else
        var registered := Registered(s, p, workspaceId, filename, data);
        (if settings.ingestEager then Ingest(p, registered, s.nextId, data, settings, fault) else registered,
         Found(s.nextId))
    case Delete(workspaceId, isMember, documentId) =>
      if !isMember || !Visible(s, workspaceId, documentId) then (s, NotFound)
      else
        var document := s.tables.documents[documentId];
        (s.(tables := s.tables.(documents := s.tables.documents[documentId := document.(deleted := true)]),
            records := Without(s.records, workspaceId, documentId)),
         Found(documentId))
    case Reprocess(workspaceId, isMember, documentId, settings, fault) =>
      if !isMember || !Visible(s, workspaceId, documentId) then (s, NotFound)
      else if documentId !in s.files then (s, NoFile)
      else (Ingest(p, s, documentId, s.files[documentId], settings, fault), Found(documentId))
    case Job(documentId, settings, fault) =>
      if documentId !in s.tables.documents || s.tables.documents[documentId].deleted then (s, Skipped)
      else if documentId !in s.files then (s, NoFile)
      else (Ingest(p, s, documentId, s.files[documentId], settings, fault), Found(documentId))
  }

  /** The least member: the one `scalar_one_or_none` finds when there is only one. */
  function Pick(ids: set<nat>): (id: nat)
    requires ids != {}
    ensures id in ids
  {
    var some :| some in ids;
    LeastExists(ids, some);
    var id :| id in ids && forall other :: other in ids ==> id <= other;
    id
  }

  lemma {:induction false} LeastExists(ids: set<nat>, some: nat)
    requires some in ids
    ensures exists id :: id in ids && forall other :: other in ids ==> id <= other
    decreases some
  {
    if other :| other in ids && other < some {
      LeastExists(ids, other);
    }
  }

  function Start(): State { State(Tables(map[], []), map[], [], 0) }

  /** The state after the operations, from any state and from the empty one. */
  function RunFrom(p: Providers, s: State, ops: seq<Op>): State {
    if ops == [] then s else Step(p, RunFrom(p, s, ops[..|ops| - 1]), ops[|ops| - 1]).0
  }

  function Run(p: Providers, ops: seq<Op>): State { RunFrom(p, Start(), ops) }
}
