/** The dispatcher and the worker as they run when nothing interleaves, tied to the steps of the protocol. */
module ExtractionWorker {
  import opened Common
  import opened ExtractionStore
  import opened ExtractionProtocol

  /** The topic that outbox events are published to. */
  class Topic {
    var events: seq<Event>

    constructor ()
      ensures events == []
    {
      events := [];
    }

    method Publish(e: Event)
      modifies this
      ensures events == old(events) + [e]
    {
      events := events + [e];
    }
  }

  function RowSet(rows: seq<Id>): set<Id> {
    set o | o in rows
  }

  function Payloads(t: Tables, rows: seq<Id>): seq<Event>
    requires forall o :: o in rows ==> o in t.outbox
  {
    if rows == [] then [] else Payloads(t, rows[..|rows| - 1]) + [t.outbox[rows[|rows| - 1]].payload]
  }

  /** The rows marked one after the other, each at its own time. */
  function MarkAll(t: Tables, rows: seq<Id>, at: nat -> Time): Tables {
    if rows == [] then t else MarkSent(MarkAll(t, rows[..|rows| - 1], at), rows[|rows| - 1], at(|rows| - 1))
  }

  ghost predicate NoRepeat(rows: seq<Id>) {
    forall i, j :: 0 <= i < j < |rows| ==> rows[i] != rows[j]
  }

  /** The position of a row. */
  function PositionOf(rows: seq<Id>, o: Id): (i: nat)
    requires o in rows
    ensures i < |rows| && rows[i] == o
  {
    if rows[|rows| - 1] == o then |rows| - 1
    else
      assert rows == rows[..|rows| - 1] + [rows[|rows| - 1]];
      PositionOf(rows[..|rows| - 1], o)
  }

  lemma {:induction false} MarkAllFacts(t: Tables, rows: seq<Id>, at: nat -> Time)
    requires forall o :: o in rows ==> o in t.outbox
    ensures MarkAll(t, rows, at).(outbox := t.outbox) == t
    ensures MarkAll(t, rows, at).outbox == map o | o in t.outbox ::
              if o in rows then t.outbox[o].(sentAt := Some(at(PositionOf(rows, o))), claimedUntil := None)
              else t.outbox[o]
  {
    if rows != [] {
      var init, last := rows[..|rows| - 1], rows[|rows| - 1];
      assert rows == init + [last];
      MarkAllFacts(t, init, at);
    }
  }

  /** The rows are all in the outbox, with the payloads they had. */
  ghost predicate SamePayloads(before: Tables, after: Tables, rows: seq<Id>) {
    forall o :: o in rows ==> (o in before.outbox && o in after.outbox && after.outbox[o].payload == before.outbox[o].payload)
  }

  /** The first k rows are published, in order, and marked. */
  ghost predicate SentUpTo(
    before: Tables, after: Tables, earlier: seq<Event>, rows: seq<Id>, k: nat, at: nat -> Time, t: Tables, events: seq<Event>)
  {
    && k <= |rows| && SamePayloads(before, after, rows)
    && t == MarkAll(after, rows[..k], at) && events == earlier + Payloads(before, rows[..k])
  }

  /** Before the next row is published it still has its payload; published and marked, it joins those done. */
  lemma NextRow(
    before: Tables, after: Tables, earlier: seq<Event>, rows: seq<Id>, k: nat, at: nat -> Time, t: Tables, events: seq<Event>)
    requires k < |rows| && SentUpTo(before, after, earlier, rows, k, at, t, events)
    ensures rows[k] in t.outbox
    ensures SentUpTo(before, after, earlier, rows, k + 1, at, MarkSent(t, rows[k], at(k)), events + [t.outbox[rows[k]].payload])
  {
    MarkAllFacts(after, rows[..k], at);
    assert rows[..k + 1][..k] == rows[..k] && rows[k] in rows;
    var payload := before.outbox[rows[k]].payload;
    assert earlier + (Payloads(before, rows[..k]) + [payload]) == earlier + Payloads(before, rows[..k]) + [payload];
  }

  /** What dispatch_once comes to: a refused batch size, all rows sent, or a publish that raised after some. */
  datatype Dispatch = Refused | Sent(count: nat) | Broken(count: nat)

  /** The claimed rows as the UPDATE returns them. */
  method InSomeOrder(picked: set<Id>) returns (order: seq<Id>)
    ensures NoRepeat(order) && RowSet(order) == picked
  {
    order := [];
    var left := picked;
    while left != {}
      invariant left <= picked && NoRepeat(order) && forall o :: o in order <==> o in picked && o !in left
      decreases left
    {
      var o :| o in left;
      order, left := order + [o], left - {o};
    }
  }

  /** The loop of dispatch_once. */
  method PublishRows(
    db: Database, topic: Topic, rows: seq<Id>, markAt: nat -> Time, publishes: nat -> bool, ghost before: Tables)
    returns (r: Dispatch)
    requires SamePayloads(before, db.Contents(), rows)
    modifies db, topic
    ensures !r.Refused? && r.count <= |rows| && forall i :: 0 <= i < r.count ==> publishes(i)
    ensures if r.Sent? then r.count == |rows| else r.count < |rows| && !publishes(r.count)
    ensures topic.events == old(topic.events) + Payloads(before, rows[..r.count])
    ensures db.Contents() == MarkAll(old(db.Contents()), rows[..r.count], markAt)
  {
    ghost var after, earlier := db.Contents(), topic.events;
    var count := 0;
    assert SentUpTo(before, after, earlier, rows, 0, markAt, after, earlier) by {
      assert earlier + [] == earlier;
    }
    while count < |rows|
      invariant count <= |rows| && forall i :: 0 <= i < count ==> publishes(i)
      invariant SentUpTo(before, after, earlier, rows, count, markAt, db.Contents(), topic.events)
    {
      NextRow(before, after, earlier, rows, count, markAt, db.Contents(), topic.events);
      if !publishes(count) {
        return Broken(count);
      }
      topic.Publish(db.outbox[rows[count]].payload);
      db.MarkOutboxSent(rows[count], markAt(count));
      count := count + 1;
    }
    r := Sent(count);
  }

  /**
   * dispatch_once: claim a batch, then publish and mark row by row. Each picked event goes out once; when a publish
   * raises, the rows before it are sent and marked, and the rest stay claimed and unsent.
   */
  method DispatchOnce(
    db: Database, topic: Topic, batchSize: int, leaseSeconds: int, claimAt: Time, markAt: nat -> Time, publishes: nat -> bool)
    returns (r: Dispatch, ghost rows: seq<Id>)
    modifies db, topic
    ensures batchSize <= 0 <==> r == Refused
    ensures r.Refused? ==> db.Contents() == old(db.Contents()) && topic.events == old(topic.events)
    ensures !r.Refused? ==> r.count <= |rows| && NoRepeat(rows) && forall i :: 0 <= i < r.count ==> publishes(i)
    ensures r.Sent? ==> r.count == |rows|
    ensures r.Broken? ==> r.count < |rows| && !publishes(r.count)
    ensures !r.Refused? ==> OldestUnclaimed(old(db.Contents()), claimAt, batchSize, RowSet(rows))
    ensures !r.Refused? ==> topic.events == old(topic.events) + Payloads(old(db.Contents()), rows[..r.count])
    ensures !r.Refused? ==>
      db.Contents() == MarkAll(ClaimOutbox(old(db.Contents()), RowSet(rows), claimAt, leaseSeconds), rows[..r.count], markAt)
  {
    rows := [];
    var claimed := db.ClaimOutboxBatch(batchSize, leaseSeconds, claimAt);
    if claimed.None? {
      return Refused, [];
    }
    ghost var before, after := old(db.Contents()), db.Contents();
    var order := InSomeOrder(claimed.value);
    rows := order;
    assert RowSet(rows) == claimed.value;
    assert SamePayloads(before, after, rows);
    r := PublishRows(db, topic, order, markAt, publishes, before);
  }

  // ---------------------------------------------------------------------------
  // The worker
  // ---------------------------------------------------------------------------

  /** One answer of the model: valid fields, output that does not parse, or a provider error. */
  datatype Parsed = Valid(row: Extraction) | Invalid(error: string) | ProviderError

  /** What is raised when both attempts gave invalid output. */
  function RetryError(docType: string, first: string, second: string): string {
    "model output failed " + docType + " validation after retry: " + first + "; " + second
  }

  /** The first answer unless it is invalid, then the answer to the stricter prompt, then the error of both. */
  function AfterRetry(docType: string, attempt: bool -> Parsed): Parsed {
    if !attempt(false).Invalid? then attempt(false)
    else if !attempt(true).Invalid? then attempt(true)
    else Invalid(RetryError(docType, attempt(false).error, attempt(true).error))
  }

  function JoinErrors(errors: seq<string>): string {
    if errors == [] then ""
    else if |errors| == 1 then errors[0]
    else JoinErrors(errors[..|errors| - 1]) + "; " + errors[|errors| - 1]
  }

  /** _extract_fields: one bounded retry; the second attempt is asked with the stricter prompt. */
  method ExtractFields(docType: string, attempt: bool -> Parsed) returns (r: Parsed, calls: nat)
    ensures r == AfterRetry(docType, attempt)
    ensures calls == if attempt(false).Invalid? then 2 else 1
    ensures r.Valid? <==> attempt(false).Valid? || (attempt(false).Invalid? && attempt(true).Valid?)
    ensures r.Invalid? ==> attempt(false).Invalid? && attempt(true).Invalid?
  {
    var errors: seq<string> := [];
    calls := 0;
    for i := 0 to 2
      invariant calls == i == |errors|
      invariant i > 0 ==> attempt(false) == Invalid(errors[0])
      invariant i > 1 ==> attempt(true) == Invalid(errors[1])
    {
      var result := attempt(i > 0);
      calls := calls + 1;
      match result
      case Valid(_) => return result, calls;
      case ProviderError => return result, calls;
      case Invalid(error) => errors := errors + [error];
    }
    assert errors[..1] == [errors[0]] && JoinErrors(errors[..1]) == errors[0];
    assert JoinErrors(errors) == errors[0] + "; " + errors[1];
    var prefix := "model output failed " + docType + " validation after retry: ";
    assert prefix + (errors[0] + "; " + errors[1]) == prefix + errors[0] + "; " + errors[1];
    return Invalid(prefix + JoinErrors(errors)), calls;
  }

  /** What the outside world makes of one document: storage, classifier and model. */
  datatype Verdict =
    | NoOriginal
    | Unclassifiable(error: string)
    | Unsupported
    | Supported(docType: string, attempt: bool -> Parsed)
    | Transient

  datatype Outcome = Duplicate | Done | Raised

  /** The step that ends a run on a cache miss. */
  function LastStep(run: Id, verdict: Verdict): Step {
    match verdict
    case NoOriginal => Skip(run, "no_stored_original")
    case Unclassifiable(error) => Fail(run, error)
    case Unsupported => Skip(run, "unsupported_document_type")
    case Supported(docType, attempt) =>
      (match AfterRetry(docType, attempt)
       case Valid(row) => Store(run, docType, row)
       case Invalid(error) => Fail(run, error)
       case ProviderError => Reset(run))
    case Transient => Reset(run)
  }

  function Delivered(s: State, run: Id, event: Event): State {
    Apply(s, Deliver(run, event))
  }

  /** The protocol states an undisturbed delivery goes through: a claim, and some time later the cache check. */
  function Checked(s: State, run: Id, event: Event, wait: nat): State
    requires Claimable(s.t, event.jobId, s.now)
  {
    Apply(Apply(Delivered(s, run, event), Tick(wait)), CheckCache(run))
  }

  /** What the last transaction of a run writes. */
  function LastWrites(t: Tables, event: Event, verdict: Verdict, now: Time): Tables {
    match verdict
    case NoOriginal => FinishJob(t, event.jobId, Skipped, Some("no_stored_original"), now)
    case Unclassifiable(error) =>
      FinishJob(RecordFailure(t, event.spec.documentId, error), event.jobId, Failed, Some(Shortened(error)), now)
    case Unsupported => FinishJob(t, event.jobId, Skipped, Some("unsupported_document_type"), now)
    case Supported(docType, attempt) =>
      (match AfterRetry(docType, attempt)
       case Valid(row) =>
         FinishJob(StoreExtraction(t, KeyOf(event.spec, docType), row), event.jobId, Succeeded, None, now)
       case Invalid(error) =>
         FinishJob(RecordFailure(t, event.spec.documentId, error), event.jobId, Failed, Some(Shortened(error)), now)
       case ProviderError => FinishJob(t, event.jobId, Queued, None, now))
    case Transient => FinishJob(t, event.jobId, Queued, None, now)
  }

  /** A provider or network error, which is raised again. */
  predicate IsTransient(verdict: Verdict) {
    verdict.Transient? || (verdict.Supported? && AfterRetry(verdict.docType, verdict.attempt).ProviderError?)
  }

  lemma LastStepWrites(c: State, run: Id, verdict: Verdict)
    requires run in c.runs && c.runs[run].phase.Working? && KnownEvent(c.t, c.runs[run].event)
    requires verdict.Supported? ==> verdict.docType in {"invoice", "contract"}
    requires !FinishConflicts(c.t, c.runs[run].event.jobId, Queued)
    ensures Enabled(c, LastStep(run, verdict))
    ensures Apply(c, LastStep(run, verdict)).t == LastWrites(c.t, c.runs[run].event, verdict, c.now)
  {
  }

  /** The part of _run_extraction after the cache check, with its exception handlers. */
  method FinishWork(db: Database, event: Event, verdict: Verdict, now: Time) returns (r: Outcome)
    modifies db
    ensures db.Contents() == LastWrites(old(db.Contents()), event, verdict, now)
    ensures r == if IsTransient(verdict) then Raised else Done
  {
    match verdict
    case NoOriginal =>
      var _ := db.FinishExtractionJob(event.jobId, Skipped, Some("no_stored_original"), now);
      return Done;
    case Unclassifiable(error) =>
      db.RecordFailedExtraction(event.spec.documentId, error);
      var _ := db.FinishExtractionJob(event.jobId, Failed, Some(Shortened(error)), now);
      return Done;
    case Unsupported =>
      var _ := db.FinishExtractionJob(event.jobId, Skipped, Some("unsupported_document_type"), now);
      return Done;
    case Supported(docType, attempt) =>
      var parsed, _ := ExtractFields(docType, attempt);
      match parsed {
        case Valid(row) =>
          db.StoreDocumentExtraction(KeyOf(event.spec, docType), row);
          var _ := db.FinishExtractionJob(event.jobId, Succeeded, None, now);
        case Invalid(error) =>
          db.RecordFailedExtraction(event.spec.documentId, error);
          var _ := db.FinishExtractionJob(event.jobId, Failed, Some(Shortened(error)), now);
        case ProviderError =>
          var _ := db.FinishExtractionJob(event.jobId, Queued, None, now);
          return Raised;
      }
      return Done;
    case Transient =>
      var _ := db.FinishExtractionJob(event.jobId, Queued, None, now);
      return Raised;
  }

  lemma CacheCheck(s: State, run: Id, event: Event, wait: nat)
    requires Claimable(s.t, event.jobId, s.now) && run !in s.runs && KnownEvent(s.t, event)
    ensures var d, c := ClaimJob(s.t, event.jobId, s.now), Checked(s, run, event, wait);
            if event.spec.reason != Reprocess && KeyOf(event.spec, event.spec.schemaType) in s.t.extractions
            then run !in c.runs && c.t == FinishJob(d, event.jobId, Succeeded, Some("cached"), s.now + wait)
            else run in c.runs && c.runs[run] == Run(event, s.now, Working) && c.t == d && c.now == s.now + wait
                 && KnownEvent(c.t, event)
  {
  }

  lemma ClaimKeepsActive(s: State, jobId: Id)
    requires Claimable(s.t, jobId, s.now) && ActiveOk(s.t)
    ensures !FinishConflicts(ClaimJob(s.t, jobId, s.now), jobId, Queued)
  {
  }

  predicate Cached(t: Tables, event: Event) {
    event.spec.reason != Reprocess && KeyOf(event.spec, event.spec.schemaType) in t.extractions
  }

  /** A run that no other step interrupts: what it leaves after its cache check, and after its last step. */
  lemma RunAlone(s: State, run: Id, event: Event, verdict: Verdict, checking: nat, working: nat)
    requires Claimable(s.t, event.jobId, s.now) && run !in s.runs && KnownEvent(s.t, event) && ActiveOk(s.t)
    requires verdict.Supported? ==> verdict.docType in {"invoice", "contract"}
    ensures var d, c := ClaimJob(s.t, event.jobId, s.now), Checked(s, run, event, checking);
            if Cached(s.t, event)
            then run !in c.runs && c.t == FinishJob(d, event.jobId, Succeeded, Some("cached"), s.now + checking)
            else
              var e := Apply(c, Tick(working));
              run in c.runs && Enabled(e, LastStep(run, verdict))
              && Apply(e, LastStep(run, verdict)).t == LastWrites(d, event, verdict, s.now + checking + working)
  {
    CacheCheck(s, run, event, checking);
    ClaimKeepsActive(s, event.jobId);
    hide Checked, Enabled, LastWrites, KnownEvent, ActiveOk, FinishConflicts;
    if !Cached(s.t, event) {
      LastStepWrites(Apply(Checked(s, run, event, checking), Tick(working)), run, verdict);
    }
  }

  /**
   * process_extraction_job, alone on the tables, does what the protocol's steps do: it claims at once, checks the
   * cache some time later and ends some time after that.
   */
  method ProcessExtractionJob(
    db: Database, event: Event, verdict: Verdict, now: Time, checking: nat, working: nat, ghost s: State, ghost run: Id)
    returns (r: Outcome)
    requires db.Contents() == s.t && s.now == now && run !in s.runs && KnownEvent(s.t, event) && ActiveOk(s.t)
    requires verdict.Supported? ==> verdict.docType in {"invoice", "contract"}
    modifies db
    ensures r == Duplicate <==> !Claimable(s.t, event.jobId, now)
    ensures r == Duplicate ==> db.Contents() == s.t
    ensures r != Duplicate ==>
      var c := Checked(s, run, event, checking);
      if run !in c.runs then r == Done && db.Contents() == c.t
      else
        var e := Apply(c, Tick(working));
        Enabled(e, LastStep(run, verdict)) && db.Contents() == Apply(e, LastStep(run, verdict)).t
        && (r == Raised <==> IsTransient(verdict))
  {
    var won := db.ClaimExtractionJob(event.jobId, now);
    if !won {
      return Duplicate;
    }
    RunAlone(s, run, event, verdict, checking, working);
    hide Checked, Apply, Enabled, LastWrites, KnownEvent, ActiveOk;
    if event.spec.reason != Reprocess && KeyOf(event.spec, event.spec.schemaType) in db.extractions {
      var _ := db.FinishExtractionJob(event.jobId, Succeeded, Some("cached"), now + checking);
      return Done;
    }
    r := FinishWork(db, event, verdict, now + checking + working);
  }
}
