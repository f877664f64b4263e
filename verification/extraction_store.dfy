/** The extraction tables: jobs, their transactional outbox, and stored extractions. */
module ExtractionStore {
  import opened Common

  type Id = nat

  /** Seconds on the database clock. */
  type Time = int

  /** The claim lease of a job: ten minutes. */
  const JOB_LEASE: int := 600

  datatype Reason = Ready | Reprocess

  datatype JobStatus = Queued | Processing | Succeeded | Failed | Skipped

  predicate Active(status: JobStatus) {
    status.Queued? || status.Processing?
  }

  /** What a job is about; it never changes after the insert. */
  datatype Spec = Spec(
    documentId: Id, tenant: Id, contentHash: string, schemaType: string, schemaVersion: int, model: string, reason: Reason)

  datatype Job = Job(spec: Spec, status: JobStatus, detail: Option<string>, attemptCount: nat, updatedAt: Time)

  /** The payload of an outbox row, and what is published. */
  datatype Event = Event(jobId: Id, spec: Spec)

  datatype OutboxRow = OutboxRow(
    jobId: Id, payload: Event, sentAt: Option<Time>, claimedUntil: Option<Time>, attempts: nat, createdAt: Time)

  /** The unique key of document_extractions. */
  datatype Key = Key(tenant: Id, contentHash: string, schemaType: string, schemaVersion: int, model: string)

  datatype Extraction = Extraction(documentId: Id, fields: string, overallConfidence: real, needsReview: bool)

  datatype Tables = Tables(
    jobs: map<Id, Job>, outbox: map<Id, OutboxRow>, extractions: map<Key, Extraction>, failures: seq<(Id, string)>)

  // ---------------------------------------------------------------------------
  // Statements, as functions on the tables
  // ---------------------------------------------------------------------------

  /** extraction_jobs_one_active_per_document, checked against the other jobs of the document. */
  predicate ActiveElsewhere(jobs: map<Id, Job>, documentId: Id, except: Option<Id>) {
    exists j :: j in jobs && Some(j) != except && jobs[j].spec.documentId == documentId && Active(jobs[j].status)
  }

  predicate FreshIds(t: Tables, jobId: Id, outboxId: Id) {
    jobId !in t.jobs && outboxId !in t.outbox
  }

  /** insert_extraction_job: the job and its event in one transaction, or nothing. */
  function InsertJob(t: Tables, spec: Spec, eligible: bool, jobId: Id, outboxId: Id, now: Time): Tables {
    if !eligible || ActiveElsewhere(t.jobs, spec.documentId, None) then t
    else t.(
      jobs := t.jobs[jobId := Job(spec, Queued, None, 0, now)],
      outbox := t.outbox[outboxId := OutboxRow(jobId, Event(jobId, spec), None, None, 0, now)])
  }

  predicate Claimable(t: Tables, jobId: Id, now: Time) {
    jobId in t.jobs &&
    (t.jobs[jobId].status.Queued? ||
     (t.jobs[jobId].status.Processing? && t.jobs[jobId].updatedAt < now - JOB_LEASE))
  }

  /** claim_extraction_job. */
  function ClaimJob(t: Tables, jobId: Id, now: Time): Tables {
    if !Claimable(t, jobId, now) then t
    else
      var job := t.jobs[jobId];
      t.(jobs := t.jobs[jobId := job.(status := Processing, updatedAt := now, attemptCount := job.attemptCount + 1)])
  }

  /** The update of finish_extraction_job violates the partial unique index. */
  predicate FinishConflicts(t: Tables, jobId: Id, status: JobStatus) {
    jobId in t.jobs && Active(status) && ActiveElsewhere(t.jobs, t.jobs[jobId].spec.documentId, Some(jobId))
  }

  /** finish_extraction_job: unguarded by the old status; a violated index raises and changes nothing. */
  function FinishJob(t: Tables, jobId: Id, status: JobStatus, detail: Option<string>, now: Time): Tables {
    if jobId !in t.jobs || FinishConflicts(t, jobId, status) then t
    else t.(jobs := t.jobs[jobId := t.jobs[jobId].(status := status, detail := detail, updatedAt := now)])
  }

  /** The detail of a failed job: the first 500 characters of its error. */
  function Shortened(error: string): string {
    if |error| <= 500 then error else error[..500]
  }

  predicate Unclaimed(row: OutboxRow, now: Time) {
    row.sentAt.None? && (row.claimedUntil.None? || row.claimedUntil.value < now)
  }

  /** The rows one SELECT ... ORDER BY created_at LIMIT n may return. */
  ghost predicate OldestUnclaimed(t: Tables, now: Time, batchSize: nat, picked: set<Id>) {
    && (forall o :: o in picked ==> o in t.outbox && Unclaimed(t.outbox[o], now))
    && |picked| <= batchSize
    && (forall o, p :: o in picked && p in t.outbox && p !in picked && Unclaimed(t.outbox[p], now) ==>
          |picked| == batchSize && t.outbox[o].createdAt <= t.outbox[p].createdAt)
    && (|picked| < batchSize ==> forall p :: p in t.outbox && Unclaimed(t.outbox[p], now) ==> p in picked)
  }

  /** claim_outbox_batch. */
  function ClaimOutbox(t: Tables, picked: set<Id>, now: Time, leaseSeconds: int): Tables {
    t.(outbox := map o | o in t.outbox ::
      if o in picked then t.outbox[o].(claimedUntil := Some(now + leaseSeconds), attempts := t.outbox[o].attempts + 1)
      else t.outbox[o])
  }

  /** mark_outbox_sent. */
  function MarkSent(t: Tables, outboxId: Id, now: Time): Tables {
    if outboxId !in t.outbox then t
    else t.(outbox := t.outbox[outboxId := t.outbox[outboxId].(sentAt := Some(now), claimedUntil := None)])
  }

  function KeyOf(spec: Spec, schemaType: string): Key {
    Key(spec.tenant, spec.contentHash, schemaType, spec.schemaVersion, spec.model)
  }

  /** store_document_extraction: insert, or replace the row with the same key. */
  function StoreExtraction(t: Tables, key: Key, row: Extraction): Tables {
    t.(extractions := t.extractions[key := row])
  }

  function RecordFailure(t: Tables, documentId: Id, error: string): Tables {
    t.(failures := t.failures + [(documentId, error)])
  }

  // ---------------------------------------------------------------------------
  // The statements in place
  // ---------------------------------------------------------------------------

  class Database {
    var jobs: map<Id, Job>
    var outbox: map<Id, OutboxRow>
    var extractions: map<Key, Extraction>
    var failures: seq<(Id, string)>

    function Contents(): Tables
      reads this
    {
      Tables(jobs, outbox, extractions, failures)
    }

    constructor ()
      ensures Contents() == Tables(map[], map[], map[], [])
    {
      jobs, outbox, extractions, failures := map[], map[], map[], [];
    }

    method InsertExtractionJob(spec: Spec, eligible: bool, jobId: Id, outboxId: Id, now: Time) returns (r: Option<Id>)
      requires FreshIds(Contents(), jobId, outboxId)
      modifies this
      ensures Contents() == InsertJob(old(Contents()), spec, eligible, jobId, outboxId, now)
      ensures r == if eligible && !ActiveElsewhere(old(jobs), spec.documentId, None) then Some(jobId) else None
    {
      if !eligible || ActiveElsewhere(jobs, spec.documentId, None) {
        return None;
      }
      jobs := jobs[jobId := Job(spec, Queued, None, 0, now)];
      outbox := outbox[outboxId := OutboxRow(jobId, Event(jobId, spec), None, None, 0, now)];
      return Some(jobId);
    }

    method ClaimExtractionJob(jobId: Id, now: Time) returns (won: bool)
      modifies `jobs
      ensures Contents() == ClaimJob(old(Contents()), jobId, now) && won == Claimable(old(Contents()), jobId, now)
    {
      won := Claimable(Contents(), jobId, now);
      if won {
        var job := jobs[jobId];
        jobs := jobs[jobId := job.(status := Processing, updatedAt := now, attemptCount := job.attemptCount + 1)];
      }
    }

    /** The result says whether the update went through; false stands for the raised unique violation. */
    method FinishExtractionJob(jobId: Id, status: JobStatus, detail: Option<string>, now: Time) returns (ok: bool)
      modifies `jobs
      ensures Contents() == FinishJob(old(Contents()), jobId, status, detail, now)
      ensures ok == !FinishConflicts(old(Contents()), jobId, status)
    {
      ok := !FinishConflicts(Contents(), jobId, status);
      if jobId in jobs && ok {
        jobs := jobs[jobId := jobs[jobId].(status := status, detail := detail, updatedAt := now)];
      }
    }

    /** A batch size that is not positive is refused, as None. */
    method ClaimOutboxBatch(batchSize: int, leaseSeconds: int, now: Time) returns (rows: Option<set<Id>>)
      modifies `outbox
      ensures batchSize <= 0 <==> rows == None
      ensures rows.None? ==> Contents() == old(Contents())
      ensures rows.Some? ==> OldestUnclaimed(old(Contents()), now, batchSize, rows.value)
      ensures rows.Some? ==> Contents() == ClaimOutbox(old(Contents()), rows.value, now, leaseSeconds)
    {
      if batchSize <= 0 {
        return None;
      }
      var picked := SelectOldest(batchSize, now);
      outbox := map o | o in outbox ::
        if o in picked then outbox[o].(claimedUntil := Some(now + leaseSeconds), attempts := outbox[o].attempts + 1)
        else outbox[o];
      return Some(picked);
    }

    /** The inner SELECT: unsent and unclaimed rows, oldest first, up to the batch size. */
    method SelectOldest(batchSize: nat, now: Time) returns (picked: set<Id>)
      ensures OldestUnclaimed(Contents(), now, batchSize, picked)
    {
      picked := {};
      var all := set o | o in outbox && Unclaimed(outbox[o], now);
      var left := all;
      while left != {} && |picked| < batchSize
        invariant left !! picked && left + picked == all
        invariant |picked| <= batchSize
        invariant forall o, p :: o in picked && p in left ==> outbox[o].createdAt <= outbox[p].createdAt
        decreases left
      {
        var oldest := Oldest(left);
        picked, left := picked + {oldest}, left - {oldest};
      }
      assert forall p :: p in all <==> p in left || p in picked;
    }

    method Oldest(rows: set<Id>) returns (oldest: Id)
      requires rows != {} && forall o :: o in rows ==> o in outbox
      ensures oldest in rows && forall o :: o in rows ==> outbox[oldest].createdAt <= outbox[o].createdAt
    {
      oldest :| oldest in rows;
      var left := rows - {oldest};
      while left != {}
        invariant left <= rows && oldest in rows
        invariant forall o :: o in rows && o !in left ==> outbox[oldest].createdAt <= outbox[o].createdAt
        decreases left
      {
        var o :| o in left;
        if outbox[o].createdAt < outbox[oldest].createdAt {
          oldest := o;
        }
        left := left - {o};
      }
    }

    method MarkOutboxSent(outboxId: Id, now: Time)
      modifies `outbox
      ensures Contents() == MarkSent(old(Contents()), outboxId, now)
    {
      if outboxId in outbox {
        outbox := outbox[outboxId := outbox[outboxId].(sentAt := Some(now), claimedUntil := None)];
      }
    }

    method StoreDocumentExtraction(key: Key, row: Extraction)
      modifies `extractions
      ensures Contents() == StoreExtraction(old(Contents()), key, row)
    {
      extractions := extractions[key := row];
    }

    method RecordFailedExtraction(documentId: Id, error: string)
      modifies `failures
      ensures Contents() == RecordFailure(old(Contents()), documentId, error)
    {
      failures := failures + [(documentId, error)];
    }
  }
}
