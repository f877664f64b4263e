/** The documents and chunks tables, and the statements of the ingestion path. */
module IngestionStore {
  import opened Common
  import opened ExtractionStore

  /** The claim lease of a document: ten minutes. */
  const CLAIM_LEASE: int := 600

  datatype DocumentStatus = Pending | Claimed | Ready | Failed

  datatype Document = Document(
    tenant: Id, contentHash: string, storageUri: Option<string>, status: DocumentStatus, changedAt: Time)

  /** Chunk rows are kept per document, in insertion order. */
  datatype DocTables = DocTables(docs: map<Id, Document>, chunks: map<Id, seq<string>>)

  function ChunksOf(t: DocTables, id: Id): seq<string> {
    if id in t.chunks then t.chunks[id] else []
  }

  /** create_pending_document. */
  function CreatePending(t: DocTables, id: Id, tenant: Id, contentHash: string, storageUri: string, now: Time): DocTables {
    t.(docs := t.docs[id := Document(tenant, contentHash, Some(storageUri), DocumentStatus.Pending, now)])
  }

  /** update_document_status: unguarded by the old status. */
  function SetStatus(t: DocTables, id: Id, status: DocumentStatus, now: Time): DocTables {
    if id !in t.docs then t
    else t.(docs := t.docs[id := t.docs[id].(status := status, changedAt := now)])
  }

  predicate DocClaimable(t: DocTables, id: Id, tenant: Id, now: Time) {
    id in t.docs && t.docs[id].tenant == tenant &&
    (t.docs[id].status.Pending? || (t.docs[id].status.Claimed? && t.docs[id].changedAt < now - CLAIM_LEASE))
  }

  /** claim_document. */
  function ClaimDoc(t: DocTables, id: Id, tenant: Id, now: Time): DocTables {
    if DocClaimable(t, id, tenant, now) then SetStatus(t, id, Claimed, now) else t
  }

  predicate Requeueable(t: DocTables, id: Id) {
    id in t.docs && (t.docs[id].status.Ready? || t.docs[id].status.Failed?)
  }

  /** queue_reingestion. */
  function Requeue(t: DocTables, id: Id, now: Time): DocTables {
    if Requeueable(t, id) then SetStatus(t, id, DocumentStatus.Pending, now) else t
  }

  function DeleteChunks(t: DocTables, id: Id): DocTables {
    t.(chunks := map d | d in t.chunks && d != id :: t.chunks[d])
  }

  /** store_chunks: insert rows after those there, and set the document ready. */
  function StoreChunks(t: DocTables, id: Id, chunks: seq<string>, now: Time): DocTables {
    SetStatus(t.(chunks := t.chunks[id := ChunksOf(t, id) + chunks]), id, DocumentStatus.Ready, now)
  }

  /** The documents half of the worker's transaction: delete, insert, ready. */
  function ReplaceChunks(t: DocTables, id: Id, chunks: seq<string>, now: Time): DocTables {
    StoreChunks(DeleteChunks(t, id), id, chunks, now)
  }

  /** insert_extraction_job's condition on the document. */
  predicate Eligible(t: DocTables, id: Id, tenant: Id) {
    id in t.docs && t.docs[id].tenant == tenant && t.docs[id].storageUri.Some?
  }

  class DocumentStore {
    var docs: map<Id, Document>
    var chunks: map<Id, seq<string>>

    function Contents(): DocTables
      reads this
    {
      DocTables(docs, chunks)
    }

    constructor ()
      ensures Contents() == DocTables(map[], map[])
    {
      docs, chunks := map[], map[];
    }

    method CreatePendingDocument(id: Id, tenant: Id, contentHash: string, storageUri: string, now: Time)
      requires id !in docs
      modifies `docs
      ensures Contents() == CreatePending(old(Contents()), id, tenant, contentHash, storageUri, now)
    {
      docs := docs[id := Document(tenant, contentHash, Some(storageUri), DocumentStatus.Pending, now)];
    }

    method UpdateDocumentStatus(id: Id, status: DocumentStatus, now: Time)
      modifies `docs
      ensures Contents() == SetStatus(old(Contents()), id, status, now)
    {
      if id in docs {
        docs := docs[id := docs[id].(status := status, changedAt := now)];
      }
    }

    method ClaimDocument(id: Id, tenant: Id, now: Time) returns (won: bool)
      modifies `docs
      ensures Contents() == ClaimDoc(old(Contents()), id, tenant, now)
      ensures won == DocClaimable(old(Contents()), id, tenant, now)
    {
      won := DocClaimable(Contents(), id, tenant, now);
      if won {
        docs := docs[id := docs[id].(status := Claimed, changedAt := now)];
      }
    }

    method QueueReingestion(id: Id, now: Time) returns (queued: bool)
      modifies `docs
      ensures Contents() == Requeue(old(Contents()), id, now) && queued == Requeueable(old(Contents()), id)
    {
      queued := Requeueable(Contents(), id);
      if queued {
        docs := docs[id := docs[id].(status := DocumentStatus.Pending, changedAt := now)];
      }
    }

    /** False stands for the raised length mismatch. */
    method StoreChunkRows(id: Id, texts: seq<string>, embeddings: seq<seq<real>>, now: Time) returns (ok: bool)
      modifies this
      ensures ok == (|texts| == |embeddings|)
      ensures Contents() == if ok then StoreChunks(old(Contents()), id, texts, now) else old(Contents())
    {
      if |texts| != |embeddings| {
        return false;
      }
      chunks := chunks[id := ChunksOf(Contents(), id) + texts];
      UpdateDocumentStatus(id, DocumentStatus.Ready, now);
      return true;
    }

    /**
     * The transaction of process_ingestion_job: chunks, ready state and extraction job together,
     * or, when the extraction budget refuses, none of them.
     */
    method CommitIngestion(
      jobs: Database, id: Id, texts: seq<string>, embeddings: seq<seq<real>>, budgetAllows: bool,
      spec: Spec, jobId: Id, outboxId: Id, now: Time) returns (ok: bool)
      requires FreshIds(jobs.Contents(), jobId, outboxId)
      modifies this, jobs
      ensures ok == (|texts| == |embeddings| && budgetAllows)
      ensures !ok ==> Contents() == old(Contents()) && jobs.Contents() == old(jobs.Contents())
      ensures ok ==> Contents() == ReplaceChunks(old(Contents()), id, texts, now)
      ensures var eligible := Eligible(old(Contents()), spec.documentId, spec.tenant);
              ok ==> jobs.Contents() == InsertJob(old(jobs.Contents()), spec, eligible, jobId, outboxId, now)
    {
      var savedDocs, savedChunks := docs, chunks;
      chunks := map d | d in chunks && d != id :: chunks[d];
      assert Contents() == DeleteChunks(old(Contents()), id);
      ok := StoreChunkRows(id, texts, embeddings, now);
      ok := ok && budgetAllows;
      if ok {
        var _ := jobs.InsertExtractionJob(spec, Eligible(Contents(), spec.documentId, spec.tenant), jobId, outboxId, now);
      } else {
        docs, chunks := savedDocs, savedChunks;
      }
    }
  }
}
