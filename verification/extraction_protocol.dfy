/** Every run of the extraction pipeline: inserts, outbox dispatch, deliveries, workers and crashes, interleaved. */
module ExtractionProtocol {
  import opened Common
  import opened ExtractionStore

  datatype Phase = Claimed | Working

  /** A worker between its claim and its finish. */
  datatype Run = Run(event: Event, claimedAt: Time, phase: Phase)

  /** A dispatcher between its claim of a row and the mark. */
  datatype Holding = Holding(dispatcher: Id, row: Id, until: Time, published: bool)

  datatype Entry = ClaimedAt(job: Id, at: Time) | FinishedAt(job: Id, at: Time, status: JobStatus)

  datatype State = State(
    now: Time, t: Tables, published: set<Event>, runs: map<Id, Run>, holdings: set<Holding>, log: seq<Entry>)

  datatype Step =
    | Tick(seconds: nat)
    | Insert(spec: Spec, eligible: bool, jobId: Id, outboxId: Id)
    | ClaimBatch(dispatcher: Id, picked: set<Id>, batchSize: nat, leaseSeconds: int)
    | Publish(h: Holding)
    | Mark(h: Holding)
    | LoseDispatcher(h: Holding)
    | Deliver(run: Id, event: Event)
    | CheckCache(run: Id)
    | Skip(run: Id, reason: string)
    | Store(run: Id, docType: string, row: Extraction)
    | Fail(run: Id, error: string)
    | Reset(run: Id)
    | Crash(run: Id)

  predicate InitState(s: State) {
    s.t == Tables(map[], map[], map[], []) && s.published == {} && s.runs == map[] && s.holdings == {} && s.log == []
  }

  predicate RunStep(step: Step) {
    step.CheckCache? || step.Skip? || step.Store? || step.Fail? || step.Reset? || step.Crash?
  }

  /** The step names a worker that runs, and a row that is stored. */
  predicate Applicable(s: State, step: Step) {
    (RunStep(step) ==> step.run in s.runs) && (step.Publish? ==> step.h.row in s.t.outbox)
  }

  ghost predicate Enabled(s: State, step: Step): (enabled: bool)
    ensures enabled ==> Applicable(s, step)
  {
    match step
    case Tick(_) => true
    case Insert(_, _, jobId, outboxId) => FreshIds(s.t, jobId, outboxId)
    case ClaimBatch(_, picked, batchSize, _) => batchSize > 0 && OldestUnclaimed(s.t, s.now, batchSize, picked)
    case Publish(h) => h in s.holdings && !h.published && h.row in s.t.outbox
    case Mark(h) => h in s.holdings && h.published
    case LoseDispatcher(h) => h in s.holdings
    case Deliver(run, event) => run !in s.runs && event in s.published
    case CheckCache(run) => run in s.runs && s.runs[run].phase.Claimed?
    case Skip(run, _) => run in s.runs && s.runs[run].phase.Working?
    case Store(run, docType, _) => run in s.runs && s.runs[run].phase.Working? && docType in {"invoice", "contract"}
    case Fail(run, _) => run in s.runs && s.runs[run].phase.Working?
    case Reset(run) => run in s.runs
    case Crash(run) => run in s.runs
  }

  function Without<V>(m: map<Id, V>, k: Id): map<Id, V> {
    map j | j in m && j != k :: m[j]
  }

  /** The last transaction of a worker: other writes to t, then the finish. A violated index rolls all of it back. */
  function FinishRun(s: State, run: Id, t: Tables, status: JobStatus, detail: Option<string>): State
    requires run in s.runs
  {
    var job := s.runs[run].event.jobId;
    if FinishConflicts(t, job, status) then s.(runs := Without(s.runs, run))
    else s.(
      t := FinishJob(t, job, status, detail, s.now),
      runs := Without(s.runs, run),
      log := s.log + [FinishedAt(job, s.now, status)])
  }

  function Apply(s: State, step: Step): State
    requires Applicable(s, step)
  {
    match step
    case Tick(seconds) => s.(now := s.now + seconds)
    case Insert(spec, eligible, jobId, outboxId) => s.(t := InsertJob(s.t, spec, eligible, jobId, outboxId, s.now))
    case ClaimBatch(dispatcher, picked, _, leaseSeconds) =>
      s.(t := ClaimOutbox(s.t, picked, s.now, leaseSeconds),
         holdings := s.holdings + set o | o in picked :: Holding(dispatcher, o, s.now + leaseSeconds, false))
    case Publish(h) =>
      s.(published := s.published + {s.t.outbox[h.row].payload},
         holdings := s.holdings - {h} + {h.(published := true)})
    case Mark(h) => s.(t := MarkSent(s.t, h.row, s.now), holdings := s.holdings - {h})
    case LoseDispatcher(h) => s.(holdings := s.holdings - {h})
    case Deliver(run, event) =>
      if !Claimable(s.t, event.jobId, s.now) then s
      else s.(
        t := ClaimJob(s.t, event.jobId, s.now),
        runs := s.runs[run := Run(event, s.now, Claimed)],
        log := s.log + [ClaimedAt(event.jobId, s.now)])
    case CheckCache(run) =>
      var spec := s.runs[run].event.spec;
      if spec.reason != Reprocess && KeyOf(spec, spec.schemaType) in s.t.extractions
      then FinishRun(s, run, s.t, Succeeded, Some("cached"))
      else s.(runs := s.runs[run := s.runs[run].(phase := Working)])
    case Skip(run, reason) => FinishRun(s, run, s.t, Skipped, Some(reason))
    case Store(run, docType, row) =>
      FinishRun(s, run, StoreExtraction(s.t, KeyOf(s.runs[run].event.spec, docType), row), Succeeded, None)
    case Fail(run, error) =>
      FinishRun(s, run, RecordFailure(s.t, s.runs[run].event.spec.documentId, error), Failed, Some(Shortened(error)))
    case Reset(run) => FinishRun(s, run, s.t, Queued, None)
    case Crash(run) => s.(runs := Without(s.runs, run))
  }

  /** The step at i is enabled and leads to the next state. */
  ghost predicate Follows(states: seq<State>, steps: seq<Step>, i: nat)
    requires |states| == |steps| + 1
  {
    i < |steps| && Enabled(states[i], steps[i]) && states[i + 1] == Apply(states[i], steps[i])
  }

  /** A run of the system: states joined by enabled steps. */
  ghost predicate Execution(states: seq<State>, steps: seq<Step>) {
    && |states| == |steps| + 1
    && InitState(states[0])
    && forall i :: 0 <= i < |steps| ==> Follows(states, steps, i)
  }

  lemma ExecutionLength(states: seq<State>, steps: seq<Step>)
    requires Execution(states, steps)
    ensures |states| == |steps| + 1 && InitState(states[0])
  {
  }

  lemma ExecutionAt(states: seq<State>, steps: seq<Step>, i: nat)
    requires Execution(states, steps) && i < |steps|
    ensures |states| == |steps| + 1 && Enabled(states[i], steps[i]) && states[i + 1] == Apply(states[i], steps[i])
  {
    hide Enabled, Apply, InitState;
    assert Follows(states, steps, i);
  }

  /** A worker's step changes jobs, if at all, by one finish of its own job, and leaves the outbox alone. */
  lemma RunStepFinishes(s: State, step: Step) returns (status: JobStatus, detail: Option<string>)
    requires Enabled(s, step) && RunStep(step)
    ensures var u, job := Apply(s, step), s.runs[step.run].event.jobId;
            && u.now == s.now && u.t.outbox == s.t.outbox && u.published == s.published && u.holdings == s.holdings
            && (u.t.jobs == s.t.jobs
                || (!FinishConflicts(s.t, job, status) && u.t.jobs == FinishJob(s.t, job, status, detail, s.now).jobs))
  {
    status := match step
      case CheckCache(_) => Succeeded
      case Skip(_, _) => Skipped
      case Store(_, _, _) => Succeeded
      case Fail(_, _) => Failed
      case _ => Queued;
    detail := match step
      case CheckCache(_) => Some("cached")
      case Skip(_, reason) => Some(reason)
      case Fail(_, error) => Some(Shortened(error))
      case _ => None;
  }

  // ---------------------------------------------------------------------------
  // Transactional outbox
  // ---------------------------------------------------------------------------

  predicate CarriesOwnEvent(t: Tables, o: Id) {
    o in t.outbox && t.outbox[o].jobId in t.jobs
    && t.outbox[o].payload == Event(t.outbox[o].jobId, t.jobs[t.outbox[o].jobId].spec)
  }

  predicate HasRow(t: Tables, j: Id) {
    exists o :: o in t.outbox && t.outbox[o].jobId == j
  }

  predicate KnownEvent(t: Tables, e: Event) {
    e.jobId in t.jobs && t.jobs[e.jobId].spec == e.spec
  }

  ghost predicate OwnEvents(t: Tables) {
    forall o :: o in t.outbox ==> CarriesOwnEvent(t, o)
  }

  ghost predicate UniqueRows(t: Tables) {
    forall o, p :: o in t.outbox && p in t.outbox && t.outbox[o].jobId == t.outbox[p].jobId ==> o == p
  }

  ghost predicate AllHaveRows(t: Tables) {
    forall j :: j in t.jobs ==> HasRow(t, j)
  }

  ghost predicate SentWerePublished(t: Tables, published: set<Event>) {
    forall o :: o in t.outbox && t.outbox[o].sentAt.Some? ==> t.outbox[o].payload in published
  }

  /** Each job has exactly one outbox row, which carries its own event and is unsent or was published. */
  ghost predicate OutboxOk(s: State) {
    OwnEvents(s.t) && UniqueRows(s.t) && AllHaveRows(s.t) && SentWerePublished(s.t, s.published)
  }

  /** Published events, claimed rows and running workers all name a stored job as it was inserted. */
  ghost predicate EventsOk(s: State) {
    && (forall e :: e in s.published ==> KnownEvent(s.t, e))
    && (forall r :: r in s.runs ==> KnownEvent(s.t, s.runs[r].event))
    && (forall h :: h in s.holdings ==>
          h.row in s.t.outbox && (h.published ==> s.t.outbox[h.row].payload in s.published))
  }

  /** Jobs are only added, and keep what they are about. */
  ghost predicate JobsGrow(t: Tables, u: Tables) {
    forall j :: j in t.jobs ==> j in u.jobs && u.jobs[j].spec == t.jobs[j].spec
  }

  /** Outbox rows are only added, and keep their job and payload. */
  ghost predicate OutboxGrows(t: Tables, u: Tables) {
    forall o :: o in t.outbox ==>
      o in u.outbox && u.outbox[o].jobId == t.outbox[o].jobId && u.outbox[o].payload == t.outbox[o].payload
  }

  lemma StepGrows(s: State, step: Step)
    requires Enabled(s, step)
    ensures JobsGrow(s.t, Apply(s, step).t) && OutboxGrows(s.t, Apply(s, step).t)
    ensures forall e :: e in s.published ==> e in Apply(s, step).published
  {
  }

  lemma OwnEventsStep(s: State, step: Step)
    requires Enabled(s, step) && OwnEvents(s.t)
    ensures OwnEvents(Apply(s, step).t)
  {
    var t, u := s.t, Apply(s, step).t;
    StepGrows(s, step);
    forall o | o in u.outbox ensures CarriesOwnEvent(u, o) {
      assert o in t.outbox ==> CarriesOwnEvent(t, o);
    }
  }

  lemma UniqueRowsStep(s: State, step: Step)
    requires Enabled(s, step) && OwnEvents(s.t) && UniqueRows(s.t)
    ensures UniqueRows(Apply(s, step).t)
  {
    if step.Insert? {
      assert forall o :: o in s.t.outbox ==> CarriesOwnEvent(s.t, o);
    } else {
      StepGrows(s, step);
      assert Apply(s, step).t.outbox.Keys == s.t.outbox.Keys;
    }
  }

  lemma AllHaveRowsStep(s: State, step: Step)
    requires Enabled(s, step) && AllHaveRows(s.t)
    ensures AllHaveRows(Apply(s, step).t)
  {
    var t, u := s.t, Apply(s, step).t;
    StepGrows(s, step);
    forall j | j in u.jobs ensures HasRow(u, j) {
      if j in t.jobs {
        assert HasRow(t, j);
        var o :| o in t.outbox && t.outbox[o].jobId == j;
        assert o in u.outbox;
      } else {
        assert u.outbox[step.outboxId].jobId == j;
      }
    }
  }

  lemma SentStep(s: State, step: Step)
    requires Enabled(s, step) && EventsOk(s) && SentWerePublished(s.t, s.published)
    ensures SentWerePublished(Apply(s, step).t, Apply(s, step).published)
  {
  }

  lemma OutboxStep(s: State, step: Step)
    requires Enabled(s, step) && OutboxOk(s) && EventsOk(s)
    ensures OutboxOk(Apply(s, step))
  {
    OwnEventsStep(s, step);
    UniqueRowsStep(s, step);
    AllHaveRowsStep(s, step);
    SentStep(s, step);
  }

  lemma EventsStep(s: State, step: Step)
    requires Enabled(s, step) && OutboxOk(s) && EventsOk(s)
    ensures EventsOk(Apply(s, step))
  {
    StepGrows(s, step);
    PublishedStep(s, step);
    RunsStep(s, step);
    HoldingsStep(s, step);
  }

  lemma PublishedStep(s: State, step: Step)
    requires Enabled(s, step) && OwnEvents(s.t) && forall e :: e in s.published ==> KnownEvent(s.t, e)
    ensures forall e :: e in Apply(s, step).published ==> KnownEvent(Apply(s, step).t, e)
  {
    StepGrows(s, step);
    var u := Apply(s, step);
    forall e | e in u.published ensures KnownEvent(u.t, e) {
      if e in s.published {
        assert KnownEvent(s.t, e);
      } else {
        assert CarriesOwnEvent(s.t, step.h.row);
      }
    }
  }

  lemma RunsStep(s: State, step: Step)
    requires Enabled(s, step) && EventsOk(s)
    ensures forall r :: r in Apply(s, step).runs ==> KnownEvent(Apply(s, step).t, Apply(s, step).runs[r].event)
  {
    StepGrows(s, step);
    var u := Apply(s, step);
    forall r | r in u.runs ensures KnownEvent(u.t, u.runs[r].event) {
      if r in s.runs {
        assert u.runs[r].event == s.runs[r].event && KnownEvent(s.t, s.runs[r].event);
      } else {
        assert u.runs[r].event == step.event && KnownEvent(s.t, step.event);
      }
    }
  }

  lemma HoldingsStep(s: State, step: Step)
    requires Enabled(s, step) && EventsOk(s)
    ensures forall h :: h in Apply(s, step).holdings ==>
              (h.row in Apply(s, step).t.outbox
               && (h.published ==> Apply(s, step).t.outbox[h.row].payload in Apply(s, step).published))
  {
    StepGrows(s, step);
  }

  // ---------------------------------------------------------------------------
  // Dispatch leases
  // ---------------------------------------------------------------------------

  /** No two dispatchers hold unexpired claims on one row. */
  ghost predicate DispatchOk(s: State) {
    && (forall h :: h in s.holdings && h.until >= s.now ==>
          h.row in s.t.outbox && (s.t.outbox[h.row].sentAt.Some? || s.t.outbox[h.row].claimedUntil == Some(h.until)))
    && (forall h, g :: h in s.holdings && g in s.holdings && h.row == g.row && h.until >= s.now && g.until >= s.now ==>
          h == g)
  }

  lemma ClaimBatchDispatch(s: State, step: Step)
    requires step.ClaimBatch? && Enabled(s, step) && DispatchOk(s)
    ensures DispatchOk(Apply(s, step))
  {
    hide OldestUnclaimed;
    var u := Apply(s, step);
    forall h | h in s.holdings && h.until >= u.now ensures h.row !in step.picked {
      HeldIsNotPicked(s, h, step.batchSize, step.picked);
    }
    forall h | h in u.holdings && h.until >= u.now
      ensures h.row in u.t.outbox && (u.t.outbox[h.row].sentAt.Some? || u.t.outbox[h.row].claimedUntil == Some(h.until)) {
      PickedAreStored(s, step.batchSize, step.picked);
    }
  }

  lemma PickedAreStored(s: State, batchSize: nat, picked: set<Id>)
    requires OldestUnclaimed(s.t, s.now, batchSize, picked)
    ensures forall o :: o in picked ==> o in s.t.outbox && Unclaimed(s.t.outbox[o], s.now)
  {
  }

  lemma HeldIsNotPicked(s: State, h: Holding, batchSize: nat, picked: set<Id>)
    requires DispatchOk(s) && h in s.holdings && h.until >= s.now && OldestUnclaimed(s.t, s.now, batchSize, picked)
    ensures h.row !in picked
  {
    PickedAreStored(s, batchSize, picked);
    hide OldestUnclaimed;
    assert h.row in s.t.outbox;
  }

  lemma DispatchStep(s: State, step: Step)
    requires Enabled(s, step) && DispatchOk(s)
    ensures DispatchOk(Apply(s, step))
  {
    var u := Apply(s, step);
    if step.ClaimBatch? {
      ClaimBatchDispatch(s, step);
    } else if RunStep(step) {
      assert u.t.outbox == s.t.outbox && u.holdings == s.holdings && u.now == s.now;
    }
  }

  // ---------------------------------------------------------------------------
  // Job claims
  // ---------------------------------------------------------------------------

  function Claims(log: seq<Entry>, j: Id): nat {
    if log == [] then 0
    else
      var e := log[|log| - 1];
      Claims(log[..|log| - 1], j) + if e.ClaimedAt? && e.job == j then 1 else 0
  }

  /** The time of the last claim of a job that no finish has followed. */
  function OpenClaim(log: seq<Entry>, j: Id): Option<Time> {
    if log == [] then None
    else
      var e := log[|log| - 1];
      if e.job != j then OpenClaim(log[..|log| - 1], j)
      else if e.ClaimedAt? then Some(e.at) else None
  }

  /** A claim that follows an open one comes more than a lease later. */
  predicate LateEnough(log: seq<Entry>, e: Entry) {
    e.ClaimedAt? && OpenClaim(log, e.job).Some? ==> e.at - OpenClaim(log, e.job).value > JOB_LEASE
  }

  predicate Spaced(log: seq<Entry>) {
    log == [] || (Spaced(log[..|log| - 1]) && LateEnough(log[..|log| - 1], log[|log| - 1]))
  }

  lemma {:induction false} UnknownJob(log: seq<Entry>, j: Id)
    requires forall e :: e in log ==> e.job != j
    ensures Claims(log, j) == 0 && OpenClaim(log, j) == None
  {
    if log != [] {
      assert log[|log| - 1] in log;
      UnknownJob(log[..|log| - 1], j);
    }
  }

  function OpenClaimAfter(log: seq<Entry>, e: Entry, j: Id): Option<Time> {
    if e.job != j then OpenClaim(log, j) else if e.ClaimedAt? then Some(e.at) else None
  }

  /** One more entry in the log. */
  lemma LogGrows(log: seq<Entry>, e: Entry)
    ensures forall j :: Claims(log + [e], j) == Claims(log, j) + if e.ClaimedAt? && e.job == j then 1 else 0
    ensures forall j :: OpenClaim(log + [e], j) == OpenClaimAfter(log, e, j)
    ensures Spaced(log + [e]) <==> Spaced(log) && LateEnough(log, e)
  {
    assert (log + [e])[..|log|] == log;
  }

  ghost predicate LogOrdered(s: State) {
    && (forall i, k :: 0 <= i < k < |s.log| ==> s.log[i].at <= s.log[k].at)
    && (forall e :: e in s.log ==> e.at <= s.now && e.job in s.t.jobs)
  }

  /** The log agrees with the job rows: claims are counted, and an open claim is the row's last update. */
  ghost predicate LogAgrees(log: seq<Entry>, jobs: map<Id, Job>) {
    && (forall j :: j in jobs ==> jobs[j].attemptCount == Claims(log, j))
    && (forall j :: OpenClaim(log, j).Some? ==>
          j in jobs && jobs[j].status.Processing? && jobs[j].updatedAt == OpenClaim(log, j).value)
  }

  ghost predicate LogOk(s: State) {
    Spaced(s.log) && LogOrdered(s) && LogAgrees(s.log, s.t.jobs)
  }

  lemma ClaimAgrees(log: seq<Entry>, jobs: map<Id, Job>, after: map<Id, Job>, e: Entry)
    requires e.ClaimedAt? && e.job in jobs && LogAgrees(log, jobs) && Spaced(log)
    requires jobs[e.job].status.Processing? ==> jobs[e.job].updatedAt < e.at - JOB_LEASE
    requires after == jobs[e.job := jobs[e.job].(status := Processing, updatedAt := e.at,
                                                 attemptCount := jobs[e.job].attemptCount + 1)]
    ensures LogAgrees(log + [e], after) && Spaced(log + [e])
  {
    LogGrows(log, e);
  }

  lemma OrderGrows(s: State, u: State, e: Entry)
    requires LogOrdered(s) && u.log == s.log + [e] && u.now == s.now == e.at
    requires e.job in u.t.jobs && s.t.jobs.Keys <= u.t.jobs.Keys
    ensures LogOrdered(u)
  {
    assert forall x :: x in u.log ==> x in s.log || x == e;
    assert forall i :: 0 <= i < |s.log| ==> s.log[i] in s.log;
  }

  lemma DeliverLog(s: State, step: Step)
    requires step.Deliver? && Claimable(s.t, step.event.jobId, s.now) && LogOk(s)
    ensures LogOk(Apply(s, step))
  {
    hide Spaced, LogAgrees, LogOrdered;
    var e := ClaimedAt(step.event.jobId, s.now);
    var u := Apply(s, step);
    ClaimAgrees(s.log, s.t.jobs, u.t.jobs, e);
    OrderGrows(s, u, e);
  }

  lemma FinishAgrees(log: seq<Entry>, jobs: map<Id, Job>, after: map<Id, Job>, e: Entry)
    requires e.FinishedAt? && e.job in jobs && LogAgrees(log, jobs) && Spaced(log)
    requires after.Keys == jobs.Keys && after[e.job].attemptCount == jobs[e.job].attemptCount
    requires forall j :: j in jobs && j != e.job ==> after[j] == jobs[j]
    ensures LogAgrees(log + [e], after) && Spaced(log + [e])
  {
    LogGrows(log, e);
  }

  lemma FinishLog(s: State, run: Id, t: Tables, status: JobStatus, detail: Option<string>)
    requires run in s.runs && s.runs[run].event.jobId in s.t.jobs && t.jobs == s.t.jobs && LogOk(s)
    ensures LogOk(FinishRun(s, run, t, status, detail))
  {
    var job := s.runs[run].event.jobId;
    var u := FinishRun(s, run, t, status, detail);
    if !FinishConflicts(t, job, status) {
      hide Spaced, LogAgrees, LogOrdered;
      FinishAgrees(s.log, s.t.jobs, u.t.jobs, FinishedAt(job, s.now, status));
      OrderGrows(s, u, FinishedAt(job, s.now, status));
    }
  }

  lemma LogStep(s: State, step: Step)
    requires Enabled(s, step) && EventsOk(s) && LogOk(s)
    ensures LogOk(Apply(s, step))
  {
    if RunStep(step) {
      assert KnownEvent(s.t, s.runs[step.run].event);
      var spec := s.runs[step.run].event.spec;
      match step
      case CheckCache(run) => FinishLog(s, run, s.t, Succeeded, Some("cached"));
      case Skip(run, reason) => FinishLog(s, run, s.t, Skipped, Some(reason));
      case Store(run, docType, row) =>
        FinishLog(s, run, StoreExtraction(s.t, KeyOf(spec, docType), row), Succeeded, None);
      case Fail(run, error) =>
        FinishLog(s, run, RecordFailure(s.t, spec.documentId, error), Failed, Some(Shortened(error)));
      case Reset(run) => FinishLog(s, run, s.t, Queued, None);
      case Crash(_) =>
    } else if step.Deliver? {
      if Claimable(s.t, step.event.jobId, s.now) {
        DeliverLog(s, step);
      }
    } else if step.Insert? {
      UnknownJob(s.log, step.jobId);
    }
  }

  // ---------------------------------------------------------------------------
  // Job states
  // ---------------------------------------------------------------------------

  /** At most one active job per document. */
  ghost predicate ActiveOk(t: Tables) {
    forall j, k ::
      (j in t.jobs && k in t.jobs && Active(t.jobs[j].status) && Active(t.jobs[k].status)
       && t.jobs[j].spec.documentId == t.jobs[k].spec.documentId) ==> j == k
  }

  predicate HasExtraction(t: Tables, spec: Spec) {
    exists k :: k in t.extractions && k == KeyOf(spec, k.schemaType)
  }

  /** A succeeded job has a stored extraction of its tenant, content, version and model. */
  ghost predicate StoredOk(t: Tables) {
    forall j :: j in t.jobs && t.jobs[j].status.Succeeded? ==> HasExtraction(t, t.jobs[j].spec)
  }

  lemma FinishKeepsActive(t: Tables, job: Id, status: JobStatus, detail: Option<string>, now: Time)
    requires ActiveOk(t) && !FinishConflicts(t, job, status)
    ensures ActiveOk(FinishJob(t, job, status, detail, now))
  {
  }

  lemma ActiveDependsOnJobs(t: Tables, u: Tables)
    requires t.jobs == u.jobs
    ensures ActiveOk(t) <==> ActiveOk(u)
  {
  }

  lemma ActiveStep(s: State, step: Step)
    requires Enabled(s, step) && EventsOk(s) && ActiveOk(s.t)
    ensures ActiveOk(Apply(s, step).t)
  {
    if RunStep(step) {
      var job := s.runs[step.run].event.jobId;
      var status, detail := RunStepFinishes(s, step);
      hide *;
      if Apply(s, step).t.jobs == s.t.jobs {
        ActiveDependsOnJobs(s.t, Apply(s, step).t);
      } else {
        FinishKeepsActive(s.t, job, status, detail, s.now);
        ActiveDependsOnJobs(FinishJob(s.t, job, status, detail, s.now), Apply(s, step).t);
      }
    } else {
      hide EventsOk, FinishRun;
    }
  }

  /** Only a run that stores its result writes extraction rows, and no row is ever dropped. */
  lemma OnlyStoreWrites(s: State, step: Step)
    requires Enabled(s, step)
    ensures !step.Store? ==> Apply(s, step).t.extractions == s.t.extractions
    ensures forall k :: k in s.t.extractions ==> k in Apply(s, step).t.extractions
  {
  }

  /** A job succeeds by a cache hit or a stored result of a worker on it, and either leaves an extraction for it. */
  lemma NewlySucceeded(s: State, step: Step, j: Id)
    requires Enabled(s, step) && EventsOk(s)
    requires j in Apply(s, step).t.jobs && Apply(s, step).t.jobs[j].status.Succeeded?
    requires !(j in s.t.jobs && s.t.jobs[j].status.Succeeded?)
    ensures HasExtraction(Apply(s, step).t, Apply(s, step).t.jobs[j].spec)
  {
    assert (step.Store? || step.CheckCache?) && s.runs[step.run].event.jobId == j;
    var spec := s.runs[step.run].event.spec;
    assert KnownEvent(s.t, s.runs[step.run].event);
    var k := KeyOf(spec, if step.Store? then step.docType else spec.schemaType);
    assert k in Apply(s, step).t.extractions && k == KeyOf(spec, k.schemaType);
  }

  lemma StoredStep(s: State, step: Step)
    requires Enabled(s, step) && EventsOk(s) && StoredOk(s.t)
    ensures StoredOk(Apply(s, step).t)
  {
    var t, u := s.t, Apply(s, step).t;
    StepGrows(s, step);
    OnlyStoreWrites(s, step);
    forall j | j in u.jobs && u.jobs[j].status.Succeeded? ensures HasExtraction(u, u.jobs[j].spec) {
      hide Enabled, Apply, EventsOk;
      if j in t.jobs && t.jobs[j].status.Succeeded? {
        assert HasExtraction(t, t.jobs[j].spec);
        var k :| k in t.extractions && k == KeyOf(t.jobs[j].spec, k.schemaType);
        assert k in u.extractions;
      } else {
        NewlySucceeded(s, step, j);
      }
    }
  }

  /** The last row stored under a key by the steps from i to k, if any. */
  function LastStored(states: seq<State>, steps: seq<Step>, i: nat, k: nat, key: Key): Option<Extraction>
    requires i <= k <= |steps| <= |states|
  {
    if k == i then None
    else if StoresUnder(states[k - 1], steps[k - 1], key) then Some(steps[k - 1].row)
    else LastStored(states, steps, i, k - 1, key)
  }

  predicate StoresUnder(s: State, step: Step, key: Key) {
    step.Store? && step.run in s.runs && KeyOf(s.runs[step.run].event.spec, step.docType) == key
  }

  function RowUnder(t: Tables, key: Key): Option<Extraction> {
    if key in t.extractions then Some(t.extractions[key]) else None
  }

  /**
   * Between any two states of an execution the row under a key is the one stored last by a run that stored its
   * result, or unchanged when none did: runs that fail, reset, skip or crash leave extraction rows as they were.
   */
  lemma {:induction false} RowsAreLastStored(states: seq<State>, steps: seq<Step>, i: nat, k: nat, key: Key)
    requires Execution(states, steps) && i <= k < |states|
    ensures var stored := LastStored(states, steps, i, k, key);
            RowUnder(states[k].t, key) == if stored.Some? then stored else RowUnder(states[i].t, key)
  {
    hide Execution;
    ExecutionLength(states, steps);
    if i < k {
      RowsAreLastStored(states, steps, i, k - 1, key);
      ExecutionAt(states, steps, k - 1);
      OnlyStoreWrites(states[k - 1], steps[k - 1]);
    }
  }

  // ---------------------------------------------------------------------------
  // All runs
  // ---------------------------------------------------------------------------

  ghost predicate Inv(s: State) {
    OutboxOk(s) && EventsOk(s) && DispatchOk(s) && LogOk(s) && ActiveOk(s.t) && StoredOk(s.t)
  }

  lemma StepKeepsInv(s: State, step: Step)
    requires Enabled(s, step) && Inv(s)
    ensures Inv(Apply(s, step))
  {
    OutboxStep(s, step);
    EventsStep(s, step);
    DispatchStep(s, step);
    LogStep(s, step);
    ActiveStep(s, step);
    StoredStep(s, step);
  }

  lemma InitInv(s: State)
    requires InitState(s)
    ensures Inv(s)
  {
  }

  /** The invariants hold in every reachable state, without any premise on how long workers take. */
  lemma {:induction false} ReachableInv(states: seq<State>, steps: seq<Step>, i: nat)
    requires Execution(states, steps) && i < |states|
    ensures Inv(states[i])
  {
    hide *;
    ExecutionLength(states, steps);
    if i == 0 {
      InitInv(states[0]);
    } else {
      ReachableInv(states, steps, i - 1);
      ExecutionAt(states, steps, i - 1);
      StepKeepsInv(states[i - 1], steps[i - 1]);
    }
  }

  /** No finish of the job lies between positions i and k of the log. */
  ghost predicate NoFinishBetween(log: seq<Entry>, j: Id, i: int, k: int) {
    forall m :: i < m < k && 0 <= m < |log| ==> !(log[m].FinishedAt? && log[m].job == j)
  }

  lemma {:induction false} OpenSince(log: seq<Entry>, i: nat)
    requires i < |log| && log[i].ClaimedAt? && NoFinishBetween(log, log[i].job, i, |log|)
    requires forall a, b :: 0 <= a < b < |log| ==> log[a].at <= log[b].at
    ensures OpenClaim(log, log[i].job).Some? && OpenClaim(log, log[i].job).value >= log[i].at
  {
    var n := |log| - 1;
    if i < n && log[n].job != log[i].job {
      OpenSince(log[..n], i);
    }
  }

  lemma {:induction false} SpacedPrefix(log: seq<Entry>, k: nat)
    requires Spaced(log) && k <= |log|
    ensures Spaced(log[..k])
  {
    if k < |log| {
      SpacedPrefix(log[..|log| - 1], k);
      assert log[..|log| - 1][..k] == log[..k];
    } else {
      assert log[..k] == log;
    }
  }

  /** Two claims of a job with no finish of it between them are more than ten minutes apart. */
  lemma ClaimsAreSpaced(states: seq<State>, steps: seq<Step>, n: nat, i: nat, k: nat)
    requires Execution(states, steps) && n < |states| && i < k < |states[n].log|
    requires states[n].log[i].ClaimedAt? && states[n].log[k].ClaimedAt? && states[n].log[k].job == states[n].log[i].job
    requires NoFinishBetween(states[n].log, states[n].log[i].job, i, k)
    ensures states[n].log[k].at - states[n].log[i].at > JOB_LEASE
  {
    ReachableInv(states, steps, n);
    SpacedPair(states[n].log, i, k);
  }

  lemma SpacedPair(log: seq<Entry>, i: nat, k: nat)
    requires Spaced(log) && forall a, b :: 0 <= a < b < |log| ==> log[a].at <= log[b].at
    requires i < k < |log| && log[i].ClaimedAt? && log[k].ClaimedAt? && log[k].job == log[i].job
    requires NoFinishBetween(log, log[i].job, i, k)
    ensures log[k].at - log[i].at > JOB_LEASE
  {
    OpenSince(log[..k], i);
    SpacedPrefix(log, k + 1);
    assert log[..k + 1][..k] == log[..k];
  }

  /** What every reachable state guarantees about jobs, events, attempts and extractions, spelled out. */
  lemma ReachableGuarantees(states: seq<State>, steps: seq<Step>, i: nat, j: Id)
    requires Execution(states, steps) && i < |states| && j in states[i].t.jobs
    ensures var s, t := states[i], states[i].t;
            && (exists o :: o in t.outbox && t.outbox[o].jobId == j && t.outbox[o].payload == Event(j, t.jobs[j].spec)
                  && (t.outbox[o].sentAt.None? || Event(j, t.jobs[j].spec) in s.published)
                  && forall p :: p in t.outbox && t.outbox[p].jobId == j ==> p == o)
            && t.jobs[j].attemptCount == Claims(s.log, j)
            && (t.jobs[j].status.Succeeded? ==> HasExtraction(t, t.jobs[j].spec))
            && (Active(t.jobs[j].status) ==> !ActiveElsewhere(t.jobs, t.jobs[j].spec.documentId, Some(j)))
  {
    ReachableInv(states, steps, i);
    var t := states[i].t;
    assert HasRow(t, j);
    var o :| o in t.outbox && t.outbox[o].jobId == j;
    assert CarriesOwnEvent(t, o);
  }

  // ---------------------------------------------------------------------------
  // Workers that finish within their lease
  // ---------------------------------------------------------------------------

  predicate Live(s: State, run: Id)
    requires run in s.runs
  {
    s.now <= s.runs[run].claimedAt + JOB_LEASE
  }

  /** A worker that acts, acts within its lease. */
  predicate Timely(s: State, step: Step) {
    RunStep(step) && step.run in s.runs ==> Live(s, step.run)
  }

  ghost predicate TimelyExecution(states: seq<State>, steps: seq<Step>) {
    Execution(states, steps) && forall i :: 0 <= i < |steps| ==> Timely(states[i], steps[i])
  }

  /** A live worker's job is processing since its claim. */
  ghost predicate HoldsJob(s: State, run: Id)
    requires run in s.runs
  {
    var j := s.runs[run].event.jobId;
    j in s.t.jobs && s.t.jobs[j].status.Processing? && s.t.jobs[j].updatedAt == s.runs[run].claimedAt
  }

  /** Live workers hold their jobs, and no two of them the same one. */
  ghost predicate LeasesOk(s: State) {
    && (forall r :: r in s.runs && Live(s, r) ==> HoldsJob(s, r))
    && (forall r, q :: (r in s.runs && q in s.runs && Live(s, r) && Live(s, q)
                        && s.runs[r].event.jobId == s.runs[q].event.jobId) ==> r == q)
  }

  lemma FinishKeepsLeases(s: State, run: Id, t: Tables, status: JobStatus, detail: Option<string>)
    requires run in s.runs && Live(s, run) && t.jobs == s.t.jobs && LeasesOk(s)
    ensures LeasesOk(FinishRun(s, run, t, status, detail))
  {
    var u := FinishRun(s, run, t, status, detail);
    forall r | r in u.runs && Live(u, r) ensures HoldsJob(u, r) {
      assert Live(s, r) && HoldsJob(s, r);
      assert s.runs[r].event.jobId != s.runs[run].event.jobId;
    }
  }

  lemma DeliverKeepsLeases(s: State, step: Step)
    requires step.Deliver? && Enabled(s, step) && EventsOk(s) && LeasesOk(s)
    ensures LeasesOk(Apply(s, step))
  {
    hide FinishRun;
    var u := Apply(s, step);
    forall r | r in u.runs && Live(u, r) ensures HoldsJob(u, r) {
      assert r in s.runs && Live(s, r) ==> HoldsJob(s, r);
    }
  }

  lemma RunKeepsLeases(s: State, step: Step)
    requires RunStep(step) && Enabled(s, step) && Timely(s, step) && LeasesOk(s)
    ensures LeasesOk(Apply(s, step))
  {
    var spec := s.runs[step.run].event.spec;
    if step.Crash? || (step.CheckCache? && Apply(s, step).runs.Keys == s.runs.Keys) {
      hide FinishRun;
      var u := Apply(s, step);
      forall r | r in u.runs && Live(u, r) ensures HoldsJob(u, r) {
        assert HoldsJob(s, r);
      }
    } else {
      assert step.run in s.runs && Live(s, step.run);
      hide FinishRun, LeasesOk, Enabled, Live;
      match step
      case CheckCache(run) => FinishKeepsLeases(s, run, s.t, Succeeded, Some("cached"));
      case Skip(run, reason) => FinishKeepsLeases(s, run, s.t, Skipped, Some(reason));
      case Store(run, docType, row) =>
        FinishKeepsLeases(s, run, StoreExtraction(s.t, KeyOf(spec, docType), row), Succeeded, None);
      case Fail(run, error) =>
        FinishKeepsLeases(s, run, RecordFailure(s.t, spec.documentId, error), Failed, Some(Shortened(error)));
      case Reset(run) => FinishKeepsLeases(s, run, s.t, Queued, None);
    }
  }

  lemma OtherKeepsLeases(s: State, step: Step)
    requires !RunStep(step) && !step.Deliver? && Enabled(s, step) && EventsOk(s) && LeasesOk(s)
    ensures LeasesOk(Apply(s, step))
  {
    hide FinishRun;
    var u := Apply(s, step);
    forall r | r in u.runs && Live(u, r) ensures HoldsJob(u, r) {
      assert KnownEvent(s.t, s.runs[r].event) && HoldsJob(s, r);
    }
  }

  lemma LeaseStep(s: State, step: Step)
    requires Enabled(s, step) && Timely(s, step) && EventsOk(s) && LeasesOk(s)
    ensures LeasesOk(Apply(s, step))
  {
    hide *;
    if RunStep(step) {
      RunKeepsLeases(s, step);
    } else if step.Deliver? {
      DeliverKeepsLeases(s, step);
    } else {
      OtherKeepsLeases(s, step);
    }
  }

  lemma TimelyAt(states: seq<State>, steps: seq<Step>, i: nat)
    requires TimelyExecution(states, steps)
    ensures Execution(states, steps) && |states| == |steps| + 1 && LeasesOk(states[0])
    ensures i < |steps| ==> Timely(states[i], steps[i])
  {
  }

  lemma EventsAt(states: seq<State>, steps: seq<Step>, i: nat)
    requires Execution(states, steps) && i < |states|
    ensures EventsOk(states[i])
  {
    ReachableInv(states, steps, i);
    hide Execution, EventsOk;
  }

  lemma {:induction false} TimelyLeases(states: seq<State>, steps: seq<Step>, i: nat)
    requires TimelyExecution(states, steps) && i < |states|
    ensures LeasesOk(states[i])
  {
    hide *;
    if i == 0 {
      TimelyAt(states, steps, 0);
    } else {
      TimelyAt(states, steps, i - 1);
      TimelyLeases(states, steps, i - 1);
      EventsAt(states, steps, i - 1);
      ExecutionAt(states, steps, i - 1);
      LeaseStep(states[i - 1], steps[i - 1]);
    }
  }

  /** One timely step leaves a terminal job as it is. */
  lemma TerminalStep(s: State, step: Step, j: Id)
    requires Enabled(s, step) && Timely(s, step) && EventsOk(s) && LeasesOk(s)
    requires j in s.t.jobs && !Active(s.t.jobs[j].status)
    ensures j in Apply(s, step).t.jobs && Apply(s, step).t.jobs[j] == s.t.jobs[j]
  {
    if RunStep(step) {
      assert HoldsJob(s, step.run);
    }
  }

  lemma TerminalNext(states: seq<State>, steps: seq<Step>, k: nat, j: Id)
    requires TimelyExecution(states, steps) && k < |steps|
    requires j in states[k].t.jobs && !Active(states[k].t.jobs[j].status)
    ensures j in states[k + 1].t.jobs && states[k + 1].t.jobs[j] == states[k].t.jobs[j]
  {
    hide *;
    TimelyAt(states, steps, k);
    EventsAt(states, steps, k);
    ExecutionAt(states, steps, k);
    TimelyLeases(states, steps, k);
    TerminalStep(states[k], steps[k], j);
  }

  /** If workers finish within their lease, a job that has ended stays as it ended. */
  lemma {:induction false} TerminalStaysTerminal(states: seq<State>, steps: seq<Step>, i: nat, k: nat, j: Id)
    requires TimelyExecution(states, steps) && i <= k < |states|
    requires j in states[i].t.jobs && !Active(states[i].t.jobs[j].status)
    ensures j in states[k].t.jobs && states[k].t.jobs[j] == states[i].t.jobs[j]
  {
    if i < k {
      TerminalStaysTerminal(states, steps, i, k - 1, j);
      TerminalNext(states, steps, k - 1, j);
    }
  }

  /** A worker requeues a job that has ended, while its document has no other active job. */
  predicate Reopens(s: State, step: Step, j: Id) {
    && step.Reset? && step.run in s.runs && s.runs[step.run].event.jobId == j
    && j in s.t.jobs && !Active(s.t.jobs[j].status) && !FinishConflicts(s.t, j, Queued)
  }

  /** A job that has ended becomes active again exactly when a worker requeues it so; a worker with a live lease never does. */
  lemma ReopenedIff(s: State, step: Step, j: Id)
    requires Enabled(s, step) && EventsOk(s) && j in s.t.jobs && !Active(s.t.jobs[j].status)
    ensures j in Apply(s, step).t.jobs
    ensures Active(Apply(s, step).t.jobs[j].status) <==> Reopens(s, step, j)
    ensures LeasesOk(s) && Reopens(s, step, j) ==> !Live(s, step.run)
  {
    if RunStep(step) {
      assert KnownEvent(s.t, s.runs[step.run].event);
      assert LeasesOk(s) && Live(s, step.run) ==> HoldsJob(s, step.run);
    }
  }

  ghost predicate EndedStaysEnded(states: seq<State>, n: nat, j: Id)
    requires n < |states|
  {
    forall i, k :: 0 <= i <= k <= n && j in states[i].t.jobs && !Active(states[i].t.jobs[j].status) ==>
      (j in states[k].t.jobs && !Active(states[k].t.jobs[j].status))
  }

  ghost predicate NeverReopened(states: seq<State>, steps: seq<Step>, n: nat, j: Id)
    requires n <= |steps| <= |states|
  {
    forall i :: 0 <= i < n ==> !Reopens(states[i], steps[i], j)
  }

  lemma EndedNext(states: seq<State>, steps: seq<Step>, n: nat, j: Id)
    requires Execution(states, steps) && 0 < n < |states| && EventsOk(states[n - 1])
    ensures EndedStaysEnded(states, n - 1, j) ==>
      (EndedStaysEnded(states, n, j) <==> !Reopens(states[n - 1], steps[n - 1], j))
  {
    hide Execution, Enabled, Apply, EventsOk, FinishConflicts;
    ExecutionLength(states, steps);
    ExecutionAt(states, steps, n - 1);
    var s, u := states[n - 1], states[n];
    if j in s.t.jobs && !Active(s.t.jobs[j].status) {
      ReopenedIff(s, steps[n - 1], j);
    }
  }

  lemma EndedStarts(states: seq<State>, steps: seq<Step>, j: Id)
    requires |states| == |steps| + 1
    ensures EndedStaysEnded(states, 0, j) && NeverReopened(states, steps, 0, j)
  {
  }

  lemma EndedBefore(states: seq<State>, steps: seq<Step>, n: nat, j: Id)
    requires |states| == |steps| + 1 && 0 < n < |states|
    ensures EndedStaysEnded(states, n, j) ==> EndedStaysEnded(states, n - 1, j)
    ensures NeverReopened(states, steps, n, j)
            <==> NeverReopened(states, steps, n - 1, j) && !Reopens(states[n - 1], steps[n - 1], j)
  {
    hide Reopens;
  }

  /** Along any execution, late workers or not: a job that has ended stays ended exactly when no step reopens it. */
  lemma {:induction false} EndedStaysEndedIff(states: seq<State>, steps: seq<Step>, n: nat, j: Id)
    requires Execution(states, steps) && n < |states|
    ensures EndedStaysEnded(states, n, j) <==> NeverReopened(states, steps, n, j)
  {
    hide *;
    ExecutionLength(states, steps);
    if n == 0 {
      EndedStarts(states, steps, j);
    } else {
      EndedStaysEndedIff(states, steps, n - 1, j);
      EventsAt(states, steps, n - 1);
      EndedBefore(states, steps, n, j);
      EndedNext(states, steps, n, j);
    }
  }

  /** A path of enabled steps through the given states. */
  ghost predicate Path(states: seq<State>, steps: seq<Step>) {
    |states| == |steps| + 1 && forall i :: 0 <= i < |steps| ==> Follows(states, steps, i)
  }

  lemma JoinPaths(p: seq<State>, a: seq<Step>, q: seq<State>, b: seq<Step>)
    requires Path(p, a) && Path(q, b) && p[|a|] == q[0]
    ensures Path(p + q[1..], a + b)
  {
    hide Enabled, Apply;
    var states, steps := p + q[1..], a + b;
    forall i | 0 <= i < |steps| ensures Follows(states, steps, i) {
      if i < |a| {
        assert Follows(p, a, i);
        assert states[i] == p[i] && states[i + 1] == p[i + 1] && steps[i] == a[i];
      } else {
        assert Follows(q, b, i - |a|);
        assert states[i] == q[i - |a|] && states[i + 1] == q[i - |a| + 1] && steps[i] == b[i - |a|];
      }
    }
  }

  function Rows(spec: Spec, status: JobStatus, detail: Option<string>, attempts: nat, at: Time, row: OutboxRow): Tables {
    Tables(map[0 := Job(spec, status, detail, attempts, at)], map[0 := row], map[], [])
  }

  lemma FirstClaim(s: State, spec: Spec, row: OutboxRow)
    requires s.now == 0 && s.t == Rows(spec, Queued, None, 0, 0, row) && s.holdings == {}
    requires row.sentAt == None && row.claimedUntil == None && row.attempts == 0
    ensures Enabled(s, ClaimBatch(0, {0}, 1, 120))
    ensures Apply(s, ClaimBatch(0, {0}, 1, 120)) == s.(
      t := Rows(spec, Queued, None, 0, 0, row.(claimedUntil := Some(120), attempts := 1)),
      holdings := {Holding(0, 0, 120, false)})
  {
    var claimed := ClaimOutbox(s.t, {0}, 0, 120);
    assert claimed.outbox == map[0 := row.(claimedUntil := Some(120), attempts := 1)];
  }

  lemma FirstPublish(spec: Spec, row: OutboxRow) returns (states: seq<State>, steps: seq<Step>)
    requires row == OutboxRow(0, Event(0, spec), None, None, 0, 0)
    ensures Path(states, steps) && |steps| == 3 && InitState(states[0])
    ensures states[3] == State(0, Rows(spec, Queued, None, 0, 0, row.(claimedUntil := Some(120), attempts := 1)),
                               {Event(0, spec)}, map[], {Holding(0, 0, 120, true)}, [])
  {
    var event, h := Event(0, spec), Holding(0, 0, 120, false);
    var s0 := State(0, Tables(map[], map[], map[], []), {}, map[], {}, []);
    var s1 := Apply(s0, Insert(spec, true, 0, 0));
    assert s1.t == Rows(spec, Queued, None, 0, 0, row);
    FirstClaim(s1, spec, row);
    var s2 := Apply(s1, ClaimBatch(0, {0}, 1, 120));
    var s3 := Apply(s2, Publish(h));
    assert s3.holdings == {h.(published := true)};
    states, steps := [s0, s1, s2, s3], [Insert(spec, true, 0, 0), ClaimBatch(0, {0}, 1, 120), Publish(h)];
  }

  lemma FirstDelivery(spec: Spec, s: State, row: OutboxRow)
    requires s.now == 0 && s.t == Rows(spec, Queued, None, 0, 0, row) && s.published == {Event(0, spec)} && s.runs == map[]
    ensures Enabled(s, Deliver(0, Event(0, spec)))
    ensures var u := Apply(s, Deliver(0, Event(0, spec)));
            && u.now == 0 && u.t == Rows(spec, Processing, None, 1, 0, row) && u.published == s.published
            && u.runs == map[0 := Run(Event(0, spec), 0, Claimed)]
  {
  }

  /** A second worker claims the job after the lease of the first. */
  lemma SecondDelivery(spec: Spec, s: State, row: OutboxRow) returns (states: seq<State>, steps: seq<Step>)
    requires s.now == 0 && s.t == Rows(spec, Processing, None, 1, 0, row) && s.published == {Event(0, spec)}
    requires s.runs == map[0 := Run(Event(0, spec), 0, Claimed)]
    ensures Path(states, steps) && |steps| == 2 && states[0] == s
    ensures var u := states[2];
            && u.now == 601 && u.t == Rows(spec, Processing, None, 2, 601, row)
            && u.runs == map[0 := Run(Event(0, spec), 0, Claimed), 1 := Run(Event(0, spec), 601, Claimed)]
  {
    var event := Event(0, spec);
    var s1 := Apply(s, Tick(601));
    var s2 := Apply(s1, Deliver(1, event));
    assert s2.t.jobs == map[0 := Job(spec, Processing, None, 2, 601)];
    states, steps := [s, s1, s2], [Tick(601), Deliver(1, event)];
  }

  /** The second worker stores its result and ends the job; then the first one comes back. */
  lemma LateReset(spec: Spec, s: State, row: OutboxRow, result: Extraction) returns (states: seq<State>, steps: seq<Step>)
    requires s.now == 601 && s.t == Rows(spec, Processing, None, 2, 601, row)
    requires s.runs == map[0 := Run(Event(0, spec), 0, Claimed), 1 := Run(Event(0, spec), 601, Claimed)]
    ensures Path(states, steps) && |steps| == 3 && states[0] == s && steps[1].Store? && steps[2].Reset?
    ensures 0 in states[2].t.jobs && states[2].t.jobs[0].status.Succeeded?
    ensures 0 in states[3].t.jobs && states[3].t.jobs[0].status.Queued?
  {
    var s1 := Apply(s, CheckCache(1));
    assert s1.t == s.t && s1.runs[1].phase.Working? && s1.runs[0] == s.runs[0];
    var s2 := Apply(s1, Store(1, "invoice", result));
    assert s2.t.jobs == map[0 := Job(spec, Succeeded, None, 2, 601)] && 0 in s2.runs;
    var s3 := Apply(s2, Reset(0));
    states, steps := [s, s1, s2, s3], [CheckCache(1), Store(1, "invoice", result), Reset(0)];
  }

  /** Without that premise it fails: a worker that comes back after its lease requeues a job another worker has ended. */
  lemma LateWorkerReopens(spec: Spec, result: Extraction) returns (states: seq<State>, steps: seq<Step>)
    ensures Execution(states, steps) && |steps| == 9
    ensures 0 in states[8].t.jobs && states[8].t.jobs[0].status.Succeeded?
    ensures 0 in states[9].t.jobs && states[9].t.jobs[0].status.Queued?
  {
    var row := OutboxRow(0, Event(0, spec), None, None, 0, 0);
    var claimed := row.(claimedUntil := Some(120), attempts := 1);
    var p, a := FirstPublish(spec, row);
    FirstDelivery(spec, p[3], claimed);
    var step := Deliver(0, Event(0, spec));
    JoinPaths(p, a, [p[3], Apply(p[3], step)], [step]);
    p, a := p + [p[3], Apply(p[3], step)][1..], a + [step];
    var q, b := SecondDelivery(spec, p[4], claimed);
    JoinPaths(p, a, q, b);
    p, a := p + q[1..], a + b;
    var r, c := LateReset(spec, p[6], claimed, result);
    JoinPaths(p, a, r, c);
    states, steps := p + r[1..], a + c;
  }
}
