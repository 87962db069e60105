/** The services that drive the lifecycle, statement by statement: `run_ingestion`
    with its session, and the upload, delete, reprocess and background entry points. */
module DocumentService {
  import opened Chunker
  import opened Ingestion
  import opened Lists
  import opened Ranking
  import opened Vectors
  import opened VectorStore
  import opened Wrappers

  /** All batches one after the other. */
  function Joined(batches: seq<seq<string>>): seq<string> {
    if batches == [] then [] else batches[0] + Joined(batches[1..])
  }

  lemma JoinedFirst(first: seq<string>, later: seq<seq<string>>)
    ensures Joined([first] + later) == first + Joined(later) && Joined([]) == []
  {
    assert ([first] + later)[1..] == later;
  }

  lemma CutFirst(items: seq<string>, size: nat)
    requires size > 0
    ensures Cut(items, size)
         == if items == [] then [] else [Take(items, size)] + (if |items| <= size then [] else Cut(items[size..], size))
  {
  }

  lemma {:induction false} CutJoins(items: seq<string>, size: nat)
    requires size > 0
    ensures Joined(Cut(items, size)) == items
    decreases |items|
  {
    hide Cut, Joined;
    CutFirst(items, size);
    JoinedFirst([], []);
    if items != [] {
      var first := Take(items, size);
      if |items| <= size {
        JoinedFirst(first, []);
        assert Cut(items, size) == [first] + [];
        assert first + [] == items;
      } else {
        CutJoins(items[size..], size);
        JoinedFirst(first, Cut(items[size..], size));
        assert first + items[size..] == items;
      }
    }
  }

  lemma JoinedFrom(batches: seq<seq<string>>, b: nat)
    requires b < |batches|
    ensures Joined(batches[b..]) == batches[b] + Joined(batches[b + 1..])
  {
    assert batches[b..][1..] == batches[b + 1..];
  }

  lemma {:induction false} NothingLeft(batches: seq<seq<string>>)
    ensures Joined(batches[|batches|..]) == []
  {
  }

  class DocumentService {
    const providers: Providers
    const store: InMemoryVectorStore
    var committed: Tables
    var session: Tables
    var files: map<nat, Bytes>
    var nextId: nat

    /** Between calls the session holds no uncommitted change. */
    ghost predicate Valid()
      reads this, store
    {
      store.Valid() && session == committed
    }

    ghost function Contents(): State
      reads this, store
    {
      State(committed, files, store.records, nextId)
    }

    constructor (providers: Providers, store: InMemoryVectorStore)
      requires store.Valid() && store.records == []
      ensures Valid() && Contents() == Start()
      ensures this.providers == providers && this.store == store
    {
      this.providers, this.store := providers, store;
      committed, session, files, nextId := Tables(map[], []), Tables(map[], []), map[], 0;
    }

    method Commit()
      modifies this`committed
      ensures committed == session
    {
      committed := session;
    }

    method Rollback()
      modifies this`session
      ensures session == committed
    {
      session := committed;
    }

    method SetStatus(documentId: nat, status: Status, error: Option<string>, chunkCount: nat)
      requires documentId in session.documents
      modifies this`session
      ensures session == old(session).(documents := old(session).documents[documentId :=
                old(session).documents[documentId].(status := status, error := error, chunkCount := chunkCount)])
    {
      var document := session.documents[documentId];
      session := session.(documents := session.documents[documentId :=
                   document.(status := status, error := error, chunkCount := chunkCount)]);
    }

    /** Embeds batch by batch and builds the records; the offset pairs the `i`-th
        vector with the `i`-th row, exactly as embedding row by row would. */
    method EmbedRows(rows: seq<ChunkRow>, batches: seq<seq<string>>, workspaceId: nat, fault: Fault)
      returns (records: Result<seq<VectorRecord>>)
      requires Joined(batches) == Texts(rows)
      ensures records.Err? <==> fault.Fault? && fault.stage.AtEmbed? && fault.stage.batch < |batches|
      ensures records.Err? ==> records.error == fault.error
      ensures records.Ok? ==> records.value == RecordsFor(rows, workspaceId, providers.embed)
    {
      var built: seq<VectorRecord> := [];
      assert batches[0..] == batches;
      assert Texts(rows)[0..] == Texts(rows);
      for b := 0 to |batches|
        invariant |built| <= |rows| && Joined(batches[b..]) == Texts(rows)[|built|..]
        invariant built == RecordsFor(rows[..|built|], workspaceId, providers.embed)
        invariant fault.Fault? && fault.stage.AtEmbed? ==> fault.stage.batch >= b
      {
        if Strikes(fault, AtEmbed(b)) {
          return Err(fault.error);
        }
        JoinedFrom(batches, b);
        var offset := |built|;
        var batch := batches[b];
        assert batch + Joined(batches[b + 1..]) == Texts(rows)[offset..];
        for local := 0 to |batch|
          invariant |built| == offset + local <= |rows|
          invariant built == RecordsFor(rows[..|built|], workspaceId, providers.embed)
        {
          assert (batch + Joined(batches[b + 1..]))[local] == Texts(rows)[offset..][local];
          var vector := providers.embed(batch[local]);
          var row := rows[offset + local];
          built := built + [VectorRecord(row.id, vector,
                              Payload(workspaceId, row.documentId, row.id, row.ordinal, row.page, row.section,
                                      row.text))];
        }
        assert Joined(batches[b + 1..]) == Texts(rows)[|built|..] by {
          assert Joined(batches[b + 1..]) == (batch + Joined(batches[b + 1..]))[|batch|..];
        }
      }
      NothingLeft(batches);
      assert rows[..|rows|] == rows;
      return Ok(built);
    }

    /** The `try` block from the deletion of the vectors up to its commit. `before` are
        the tables before the row deletion. */
    method IndexChunks(
        documentId: nat, chunks: seq<TextChunk>, settings: Settings, fault: Fault, ghost before: Tables)
      returns (error: Option<string>)
      requires store.Valid() && documentId in before.documents
      requires session == before.(chunks := Filter(before.chunks, NotInDocument(documentId)))
      modifies this`session, this`nextId, store
      ensures store.Valid()
      ensures var attempt := Index(providers, State(before, files, old(store.records), old(nextId)),
                                   documentId, chunks, settings, fault);
        && store.records == attempt.records && nextId == attempt.nextId
        && (error.Some? <==> attempt.result.Err?)
        && (error.Some? ==> error.value == attempt.result.error)
        && (error.None? ==> session == attempt.result.value)
    {
      hide Without, PutAll, DropAll, DocumentKeys, Joined, Cut;
      var document := session.documents[documentId];
      store.DeleteByDocument(document.workspaceId, documentId, |store.records|);
      var rows := NewRows(chunks, documentId, nextId);
      nextId := nextId + |rows|;
      if Strikes(fault, AtFlush) {
        return Some(fault.error);
      }
      session := session.(chunks := session.chunks + rows);
      if Strikes(fault, AtEnsureReady) {
        return Some(fault.error);
      }
      var batches := Batches(Texts(rows), settings.batchSize);
      if batches.Err? {
        return Some(batches.error);
      }
      var records: seq<VectorRecord> := [];
      if settings.batchSize > 0 {
        CutJoins(Texts(rows), settings.batchSize);
        var embedded := EmbedRows(rows, batches.value, document.workspaceId, fault);
        if embedded.Err? {
          return Some(embedded.error);
        }
        records := embedded.value;
      }
      if fault.Fault? && fault.stage.AtUpsert? {
        store.Upsert(Take(records, fault.stage.done));
        return Some(fault.error);
      }
      store.Upsert(records);
      SetStatus(documentId, Indexed, None, |rows|);
      return if Strikes(fault, AtCommit) then Some(fault.error) else None;
    }

    /** The `try` block up to its commit. On an error the session is left as it is
        and the caller rolls back; the vector index keeps what was done to it. */
    method IndexDocument(documentId: nat, data: Bytes, settings: Settings, fault: Fault) returns (error: Option<string>)
      requires store.Valid() && documentId in session.documents
      modifies this`session, this`nextId, store
      ensures store.Valid()
      ensures var document := old(session).documents[documentId];
        var attempt := Try(providers, State(old(session), files, old(store.records), old(nextId)),
                           documentId, data, settings, fault);
        && store.records == attempt.records && nextId == attempt.nextId
        && (error.Some? <==> attempt.result.Err?)
        && (error.Some? ==> error.value == attempt.result.error)
        && (error.None? ==> session == attempt.result.value)
    {
      hide Without, DropAll, DocumentKeys, Extracted, Index;
      var document := session.documents[documentId];
      var chunks := Extracted(providers, document.filename, data, settings, fault);
      if chunks.Err? {
        return Some(chunks.error);
      }
      if Strikes(fault, AtRowDelete) {
        return Some(fault.error);
      }
      ghost var before := session;
      session := session.(chunks := Filter(session.chunks, NotInDocument(documentId)));
      if fault.Fault? && fault.stage.AtVectorDelete? {
        store.DeleteByDocument(document.workspaceId, documentId, fault.stage.done);
        return Some(fault.error);
      }
      error := IndexChunks(documentId, chunks.value, settings, fault, before);
    }

    /** `run_ingestion` */
    method RunIngestion(documentId: nat, data: Bytes, settings: Settings, fault: Fault)
      requires Valid() && documentId in committed.documents
      modifies this`session, this`committed, this`nextId, store
      ensures Valid()
      ensures Contents() == Ingest(providers, old(Contents()), documentId, data, settings, fault)
    {
      hide Try;
      ghost var before := Contents();
      SetStatus(documentId, Processing, None, session.documents[documentId].chunkCount);
      Commit();
      ProcessingIsInvisible(providers, before, documentId, data, settings, fault);
      var error := IndexDocument(documentId, data, settings, fault);
      if error.None? {
        Commit();
      } else {
        Rollback();
        SetStatus(documentId, Failed, error, 0);
        Commit();
      }
    }

    method CreateDocument(
        workspaceId: nat, isMember: bool, filename: string, data: Bytes, settings: Settings, fault: Fault)
      returns (reply: Reply)
      requires Valid()
      modifies this`session, this`committed, this`files, this`nextId, store
      ensures Valid()
      ensures (Contents(), reply)
           == Ingestion.Step(providers, old(Contents()), Create(workspaceId, isMember, filename, data, settings, fault))
    {
      hide Ingest;
      if !isMember {
        return NotFound;
      }
      var checksum := providers.digest(data);
      var live := set d | d in session.documents && HasChecksum(session.documents[d], workspaceId, checksum)
                          && !session.documents[d].deleted;
      assert live == LiveWithChecksum(Contents(), workspaceId, checksum);
      if live != {} {
        return Found(Pick(live));
      }
      var holders := set d | d in session.documents && HasChecksum(session.documents[d], workspaceId, checksum);
      assert holders == WithChecksum(Contents(), workspaceId, checksum);
      if holders != {} {
        return IntegrityError;
      }
      var id := nextId;
      nextId := nextId + 1;
      var document := Document(workspaceId, filename, checksum, Queued, None, 0, false);
      session := session.(documents := session.documents[id := document]);
      Commit();
      files := files[id := data];
      if settings.ingestEager {
        RunIngestion(id, data, settings, fault);
      }
      return Found(id);
    }

    /** `get_for_user` */
    method GetForUser(workspaceId: nat, isMember: bool, documentId: nat) returns (found: bool)
      requires Valid()
      ensures found <==> isMember && Visible(Contents(), workspaceId, documentId)
    {
      return isMember && documentId in session.documents
          && !session.documents[documentId].deleted && session.documents[documentId].workspaceId == workspaceId;
    }

    method DeleteDocument(workspaceId: nat, isMember: bool, documentId: nat) returns (reply: Reply)
      requires Valid()
      modifies this`session, this`committed, store
      ensures Valid()
      ensures (Contents(), reply)
           == Ingestion.Step(providers, old(Contents()), Ingestion.Delete(workspaceId, isMember, documentId))
    {
      hide Without;
      var found := GetForUser(workspaceId, isMember, documentId);
      if !found {
        return NotFound;
      }
      store.DeleteByDocument(workspaceId, documentId, |store.records|);
      var document := session.documents[documentId];
      session := session.(documents := session.documents[documentId := document.(deleted := true)]);
      Commit();
      return Found(documentId);
    }

    method ReprocessDocument(workspaceId: nat, isMember: bool, documentId: nat, settings: Settings, fault: Fault)
      returns (reply: Reply)
      requires Valid()
      modifies this`session, this`committed, this`nextId, store
      ensures Valid()
      ensures (Contents(), reply)
           == Ingestion.Step(providers, old(Contents()), Reprocess(workspaceId, isMember, documentId, settings, fault))
    {
      hide Ingest;
      var found := GetForUser(workspaceId, isMember, documentId);
      if !found {
        return NotFound;
      }
      if documentId !in files {
        return NoFile;
      }
      RunIngestion(documentId, files[documentId], settings, fault);
      return Found(documentId);
    }

    /** The background job `_ingest_document`. */
    method IngestJob(documentId: nat, settings: Settings, fault: Fault) returns (reply: Reply)
      requires Valid()
      modifies this`session, this`committed, this`nextId, store
      ensures Valid()
      ensures (Contents(), reply) == Ingestion.Step(providers, old(Contents()), Job(documentId, settings, fault))
    {
      hide Ingest;
      if documentId !in session.documents || session.documents[documentId].deleted {
        return Skipped;
      }
      if documentId !in files {
        return NoFile;
      }
      RunIngestion(documentId, files[documentId], settings, fault);
      return Found(documentId);
    }
  }

  function MarkedProcessing(s: State, documentId: nat): State
    requires documentId in s.tables.documents
  {
    var document := s.tables.documents[documentId].(status := Processing, error := None);
    s.(tables := s.tables.(documents := s.tables.documents[documentId := document]))
  }

  lemma IndexOverwritesMark(
      p: Providers, s: State, documentId: nat, chunks: seq<TextChunk>, settings: Settings, fault: Fault)
    requires documentId in s.tables.documents
    ensures Index(p, MarkedProcessing(s, documentId), documentId, chunks, settings, fault)
         == Index(p, s, documentId, chunks, settings, fault)
  {
    hide Without, PutAll, Filter, Batches, NewRows, RecordsFor, Texts, Take;
    var document := s.tables.documents[documentId];
    Overwritten(s.tables.documents, documentId, document.(status := Processing, error := None),
                document.(status := Indexed, error := None, chunkCount := |chunks|));
  }

  lemma TryOverwritesMark(
      p: Providers, s: State, documentId: nat, data: Bytes, settings: Settings, fault: Fault)
    requires documentId in s.tables.documents
    ensures Try(p, MarkedProcessing(s, documentId), documentId, data, settings, fault)
         == Try(p, s, documentId, data, settings, fault)
  {
    hide Extracted, Index, DropAll, DocumentKeys;
    match Extracted(p, s.tables.documents[documentId].filename, data, settings, fault)
    case Err(_) =>
    case Ok(chunks) => IndexOverwritesMark(p, s, documentId, chunks, settings, fault);
  }

  /** The intermediate commit of the PROCESSING status leaves no trace: both ways out
      of the ingestion overwrite what it set. */
  lemma {:induction false} ProcessingIsInvisible(
      p: Providers, s: State, documentId: nat, data: Bytes, settings: Settings, fault: Fault)
    requires documentId in s.tables.documents
    ensures Ingest(p, MarkedProcessing(s, documentId), documentId, data, settings, fault)
         == Ingest(p, s, documentId, data, settings, fault)
  {
    hide Try;
    TryOverwritesMark(p, s, documentId, data, settings, fault);
    var documents, document := s.tables.documents, s.tables.documents[documentId];
    match Try(p, s, documentId, data, settings, fault).result
    case Ok(_) =>
    case Err(error) =>
      Overwritten(documents, documentId, document.(status := Processing, error := None),
                  document.(status := Failed, error := Some(error), chunkCount := 0));
  }

  lemma Overwritten(documents: map<nat, Document>, d: nat, first: Document, second: Document)
    ensures documents[d := first][d := second] == documents[d := second]
  {
  }
}
