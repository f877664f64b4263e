/** Every run of ingestion: uploads, claims, commits, failures, crashes and re-ingest requests, with extraction beside it. */
module IngestionProtocol {
  import opened Common
  import opened ExtractionStore
  import opened IngestionStore
  import C = Chunker
  import X = ExtractionProtocol

  /** A worker between its claim and its last write. */
  datatype Worker = Worker(doc: Id, tenant: Id, claimedAt: Time)

  /** What a processing run chunks, and how. */
  datatype Chunking = Chunking(pages: seq<C.Page>, aware: bool, size: nat, overlap: nat)

  /** One complete processing run of a document. */
  datatype Output = Output(doc: Id, run: Chunking)

  function Texts(chunks: seq<C.Chunk>): (r: seq<string>)
    ensures |r| == |chunks|
  {
    seq(|chunks|, k requires 0 <= k < |chunks| => chunks[k].text)
  }

  /** The chunker's output, as the texts of the chunk rows. */
  function Produced(run: Chunking): seq<string>
    requires run.overlap < run.size
  {
    Texts(C.ChunksOfPages(run.pages, run.aware, run.size, run.overlap))
  }

  datatype State = State(t: DocTables, workers: map<Id, Worker>, outputs: seq<Output>, x: X.State)

  datatype Step =
    | Other(step: X.Step)
    | UploadAsync(doc: Id, tenant: Id, contentHash: string, storageUri: string)
    | UploadSync(doc: Id, tenant: Id, contentHash: string, run: Chunking)
    | Reingest(doc: Id)
    | Reprocess(doc: Id, schemaType: string, schemaVersion: int, model: string, jobId: Id, outboxId: Id)
    | Deliver(worker: Id, doc: Id, tenant: Id)
    | Commit(worker: Id, pages: seq<C.Page>, size: nat, overlap: nat,
             schemaType: string, schemaVersion: int, model: string, jobId: Id, outboxId: Id)
    | Fail(worker: Id)
    | FailUnheld(doc: Id)
    | Crash(worker: Id)

  /** What a commit chunks: the worker never splits pages by section. */
  function RunOf(step: Step): Chunking
    requires step.Commit? || step.UploadSync?
  {
    if step.Commit? then Chunking(step.pages, false, step.size, step.overlap) else step.run
  }

  /** The extractors drop blank text, and a run without pages, or with an overlap of the whole size, raises instead. */
  ghost predicate Chunkable(run: Chunking) {
    run.overlap < run.size && run.pages != [] && forall p :: p in run.pages ==> C.Words(p.text) != []
  }

  predicate InitState(s: State) {
    s.t == DocTables(map[], map[]) && s.workers == map[] && s.outputs == [] && X.InitState(s.x)
  }

  predicate WorkerStep(step: Step) {
    step.Commit? || step.Fail? || step.Crash?
  }

  function ReadySpec(s: State, step: Step): Spec
    requires step.Commit? && step.worker in s.workers && s.workers[step.worker].doc in s.t.docs
  {
    var w := s.workers[step.worker];
    Spec(w.doc, w.tenant, s.t.docs[w.doc].contentHash, step.schemaType, step.schemaVersion, step.model, Reason.Ready)
  }

  function ReprocessSpec(s: State, step: Step): Spec
    requires step.Reprocess? && step.doc in s.t.docs
  {
    var d := s.t.docs[step.doc];
    Spec(step.doc, d.tenant, d.contentHash, step.schemaType, step.schemaVersion, step.model, Reason.Reprocess)
  }

  /** The extraction step that a step of ingestion takes along, if any. */
  function Beside(s: State, step: Step): Option<X.Step> {
    match step
    case Other(other) => Some(other)
    case Commit(worker, _, _, _, _, _, _, jobId, outboxId) =>
      if worker in s.workers && s.workers[worker].doc in s.t.docs then
        var spec := ReadySpec(s, step);
        Some(X.Insert(spec, Eligible(s.t, spec.documentId, spec.tenant), jobId, outboxId))
      else None
    case Reprocess(doc, _, _, _, jobId, outboxId) =>
      if doc in s.t.docs then Some(X.Insert(ReprocessSpec(s, step), true, jobId, outboxId)) else None
    case _ => None
  }

  ghost predicate Enabled(s: State, step: Step) {
    && (Beside(s, step).Some? ==> X.Enabled(s.x, Beside(s, step).value))
    && match step
       case Other(other) => !other.Insert?
       case UploadAsync(doc, _, _, _) => doc !in s.t.docs && doc !in s.t.chunks
       case UploadSync(doc, _, _, run) =>
         doc !in s.t.docs && doc !in s.t.chunks && run.overlap < run.size && Produced(run) != []
       case Reingest(doc) => doc in s.t.docs && s.t.docs[doc].storageUri.Some?
       case Reprocess(doc, _, _, _, _, _) => doc in s.t.docs && s.t.docs[doc].storageUri.Some? && s.t.docs[doc].status.Ready?
       case Deliver(worker, _, _) => worker !in s.workers
       case Commit(worker, _, _, _, _, _, _, _, _) =>
         worker in s.workers && s.workers[worker].doc in s.t.docs && Chunkable(RunOf(step))
       case Fail(worker) => worker in s.workers
       case FailUnheld(_) => true
       case Crash(worker) => worker in s.workers
  }

  function Docs(s: State, step: Step): DocTables
    requires WorkerStep(step) ==> step.worker in s.workers
    requires step.Commit? || step.UploadSync? ==> RunOf(step).overlap < RunOf(step).size
  {
    var now := s.x.now;
    match step
    case UploadAsync(doc, tenant, contentHash, storageUri) => CreatePending(s.t, doc, tenant, contentHash, storageUri, now)
    case UploadSync(doc, tenant, contentHash, run) =>
      DocTables(s.t.docs[doc := Document(tenant, contentHash, None, DocumentStatus.Ready, now)],
                s.t.chunks[doc := Produced(run)])
    case Reingest(doc) => Requeue(s.t, doc, now)
    case Deliver(_, doc, tenant) => ClaimDoc(s.t, doc, tenant, now)
    case Commit(worker, _, _, _, _, _, _, _, _) =>
      ReplaceChunks(s.t, s.workers[worker].doc, Produced(RunOf(step)), now)
    case Fail(worker) => SetStatus(s.t, s.workers[worker].doc, DocumentStatus.Failed, now)
    case FailUnheld(doc) => SetStatus(s.t, doc, DocumentStatus.Failed, now)
    case _ => s.t
  }

  function Workers(s: State, step: Step): map<Id, Worker> {
    match step
    case Deliver(worker, doc, tenant) =>
      if DocClaimable(s.t, doc, tenant, s.x.now) then s.workers[worker := Worker(doc, tenant, s.x.now)] else s.workers
    case _ => if WorkerStep(step) then X.Without(s.workers, step.worker) else s.workers
  }

  function Outputs(s: State, step: Step): seq<Output>
    requires WorkerStep(step) ==> step.worker in s.workers
  {
    match step
    case UploadSync(doc, _, _, run) => s.outputs + [Output(doc, run)]
    case Commit(worker, _, _, _, _, _, _, _, _) => s.outputs + [Output(s.workers[worker].doc, RunOf(step))]
    case _ => s.outputs
  }

  ghost function Apply(s: State, step: Step): State
    requires Enabled(s, step)
  {
    State(Docs(s, step), Workers(s, step), Outputs(s, step),
          if Beside(s, step).Some? then X.Apply(s.x, Beside(s, step).value) else s.x)
  }

  /** The step at i is enabled and leads to the next state. */
  ghost predicate Follows(states: seq<State>, steps: seq<Step>, i: nat)
    requires |states| == |steps| + 1
  {
    i < |steps| && Enabled(states[i], steps[i]) && states[i + 1] == Apply(states[i], steps[i])
  }

  ghost predicate Execution(states: seq<State>, steps: seq<Step>) {
    && |states| == |steps| + 1
    && InitState(states[0])
    && forall i :: 0 <= i < |steps| ==> Follows(states, steps, i)
  }

  lemma ExecutionLength(states: seq<State>, steps: seq<Step>)
    requires Execution(states, steps)
    ensures |states| == |steps| + 1 && InitState(states[0])
  {
  }

  lemma ExecutionAt(states: seq<State>, steps: seq<Step>, i: nat)
    requires Execution(states, steps) && i < |steps|
    ensures |states| == |steps| + 1 && Enabled(states[i], steps[i]) && states[i + 1] == Apply(states[i], steps[i])
  {
    hide Enabled, Apply, InitState;
    assert Follows(states, steps, i);
  }

  // ---------------------------------------------------------------------------
  // Chunks
  // ---------------------------------------------------------------------------

  /** The last complete processing run of a document. */
  function LastRun(outputs: seq<Output>, doc: Id): Option<Chunking> {
    if outputs == [] then None
    else if outputs[|outputs| - 1].doc == doc then Some(outputs[|outputs| - 1].run)
    else LastRun(outputs[..|outputs| - 1], doc)
  }

  /** Chunk rows are exactly what a run produced, and that is something. */
  ghost predicate HoldsRun(t: DocTables, d: Id, run: Option<Chunking>) {
    match run
    case None => d !in t.chunks
    case Some(c) => c.overlap < c.size && d in t.chunks && t.chunks[d] == Produced(c) && Produced(c) != []
  }

  /** A document's chunks are what its last complete run produced, and a ready document has had such a run. */
  ghost predicate ChunksOk(s: State) {
    && (forall d: Id :: HoldsRun(s.t, d, LastRun(s.outputs, d)))
    && (forall d :: d in s.t.docs && s.t.docs[d].status.Ready? ==> d in s.t.chunks)
  }

  lemma OutputGrows(outputs: seq<Output>, o: Output)
    ensures forall d: Id :: LastRun(outputs + [o], d) == if d == o.doc then Some(o.run) else LastRun(outputs, d)
  {
    assert (outputs + [o])[..|outputs|] == outputs;
  }

  /** Pages that each hold a word make at least one chunk. */
  lemma ChunkableProduces(run: Chunking)
    requires Chunkable(run) && !run.aware
    ensures Produced(run) != []
  {
    C.PagesEmptyIff(run.pages, run.size, run.overlap);
    assert run.pages[0] in run.pages;
  }

  lemma ReplacedChunks(t: DocTables, id: Id, chunks: seq<string>, now: Time)
    ensures ReplaceChunks(t, id, chunks, now).chunks == t.chunks[id := chunks]
    ensures ReplaceChunks(t, id, chunks, now).docs == SetStatus(t, id, DocumentStatus.Ready, now).docs
  {
    assert ChunksOf(DeleteChunks(t, id), id) == [];
    assert [] + chunks == chunks;
  }

  /** Storing one more run's output under its document. */
  lemma RunIsStored(t: DocTables, u: DocTables, outputs: seq<Output>, o: Output)
    requires forall d: Id :: HoldsRun(t, d, LastRun(outputs, d))
    requires o.run.overlap < o.run.size && Produced(o.run) != [] && u.chunks == t.chunks[o.doc := Produced(o.run)]
    ensures forall d: Id :: HoldsRun(u, d, LastRun(outputs + [o], d))
  {
    hide Produced;
    OutputGrows(outputs, o);
    forall d: Id ensures HoldsRun(u, d, LastRun(outputs + [o], d)) {
      assert HoldsRun(t, d, LastRun(outputs, d));
    }
  }

  lemma ChunksStep(s: State, step: Step)
    requires Enabled(s, step) && ChunksOk(s)
    ensures ChunksOk(Apply(s, step))
  {
    var u := Apply(s, step);
    if step.Commit? {
      var doc, run := s.workers[step.worker].doc, RunOf(step);
      ChunkableProduces(run);
      ReplacedChunks(s.t, doc, Produced(run), s.x.now);
      hide Produced, Chunkable;
      RunIsStored(s.t, u.t, s.outputs, Output(doc, run));
    } else if step.UploadSync? {
      hide Produced, Chunkable;
      RunIsStored(s.t, u.t, s.outputs, Output(step.doc, step.run));
    } else {
      hide Produced, Chunkable;
      assert u.t.chunks == s.t.chunks && u.outputs == s.outputs;
      forall d: Id ensures HoldsRun(u.t, d, LastRun(u.outputs, d)) {
        assert HoldsRun(s.t, d, LastRun(s.outputs, d));
      }
    }
  }

  // ---------------------------------------------------------------------------
  // Documents and workers
  // ---------------------------------------------------------------------------

  /** Queued and claimed documents have a stored original, and workers hold documents of their tenant. */
  ghost predicate DocsOk(s: State) {
    && (forall d :: d in s.t.docs && (s.t.docs[d].status.Pending? || s.t.docs[d].status.Claimed?) ==>
          s.t.docs[d].storageUri.Some?)
    && (forall w :: w in s.workers ==> Eligible(s.t, s.workers[w].doc, s.workers[w].tenant))
  }

  predicate SameOriginal(a: Document, b: Document) {
    a.tenant == b.tenant && a.contentHash == b.contentHash && a.storageUri == b.storageUri
  }

  /** Documents are only added, and keep their tenant, hash and original. */
  ghost predicate DocsGrow(t: DocTables, u: DocTables) {
    forall d :: d in t.docs ==> d in u.docs && SameOriginal(t.docs[d], u.docs[d])
  }

  lemma EligibleIsKept(t: DocTables, u: DocTables, doc: Id, tenant: Id)
    requires DocsGrow(t, u)
    ensures Eligible(t, doc, tenant) ==> Eligible(u, doc, tenant)
  {
  }

  lemma DocsGrowStep(s: State, step: Step)
    requires Enabled(s, step)
    ensures DocsGrow(s.t, Apply(s, step).t)
  {
    hide Produced, Chunkable;
  }

  lemma DocsStep(s: State, step: Step)
    requires Enabled(s, step) && DocsOk(s)
    ensures DocsOk(Apply(s, step)) && DocsGrow(s.t, Apply(s, step).t)
  {
    hide Produced, Chunkable;
    DocsGrowStep(s, step);
    hide DocsGrow;
    var u := Apply(s, step);
    forall w | w in u.workers ensures Eligible(u.t, u.workers[w].doc, u.workers[w].tenant) {
      assert w in s.workers ==> Eligible(s.t, s.workers[w].doc, s.workers[w].tenant);
      EligibleIsKept(s.t, u.t, u.workers[w].doc, u.workers[w].tenant);
    }
  }

  lemma ExtractionStep(s: State, step: Step)
    requires Enabled(s, step) && X.Inv(s.x)
    ensures X.Inv(Apply(s, step).x)
  {
    if Beside(s, step).Some? {
      X.StepKeepsInv(s.x, Beside(s, step).value);
    }
  }

  ghost predicate Inv(s: State) {
    ChunksOk(s) && DocsOk(s) && X.Inv(s.x)
  }

  lemma InitInv(s: State)
    requires InitState(s)
    ensures Inv(s) && LeasesOk(s)
  {
  }

  lemma StepKeepsInv(s: State, step: Step)
    requires Enabled(s, step) && Inv(s)
    ensures Inv(Apply(s, step))
  {
    hide Enabled, Apply, ChunksOk, DocsOk, DocsGrow, X.Inv;
    ChunksStep(s, step);
    DocsStep(s, step);
    ExtractionStep(s, step);
  }

  lemma {:induction false} ReachableInv(states: seq<State>, steps: seq<Step>, i: nat)
    requires Execution(states, steps) && i < |states|
    ensures Inv(states[i])
  {
    hide *;
    ExecutionLength(states, steps);
    if i == 0 {
      InitInv(states[0]);
    } else {
      ExecutionAt(states, steps, i - 1);
      ReachableInv(states, steps, i - 1);
      StepKeepsInv(states[i - 1], steps[i - 1]);
    }
  }

  lemma DocsAt(states: seq<State>, steps: seq<Step>, i: nat)
    requires Execution(states, steps) && i < |states|
    ensures ChunksOk(states[i]) && DocsOk(states[i])
  {
    ReachableInv(states, steps, i);
    hide Execution, ChunksOk, DocsOk, X.Inv;
  }

  lemma {:induction false} LastIsListed(outputs: seq<Output>, d: Id)
    requires LastRun(outputs, d).Some?
    ensures Output(d, LastRun(outputs, d).value) in outputs
  {
    var n := |outputs| - 1;
    if outputs[n].doc == d {
      assert outputs[n] == Output(d, outputs[n].run);
    } else {
      LastIsListed(outputs[..n], d);
    }
  }

  /**
   * A ready document holds the whole chunker output of one processing run, its last: never a mixture,
   * never part of one, and never nothing.
   */
  lemma ReadyIsOneOutput(states: seq<State>, steps: seq<Step>, i: nat, d: Id)
    requires Execution(states, steps) && i < |states|
    requires d in states[i].t.docs && states[i].t.docs[d].status.Ready?
    ensures d in states[i].t.chunks && states[i].t.chunks[d] != []
    ensures var run := LastRun(states[i].outputs, d);
            && run.Some? && run.value.overlap < run.value.size
            && states[i].t.chunks[d] == Produced(run.value) && Output(d, run.value) in states[i].outputs
  {
    DocsAt(states, steps, i);
    hide Execution, DocsOk;
    assert HoldsRun(states[i].t, d, LastRun(states[i].outputs, d));
    LastIsListed(states[i].outputs, d);
  }

  predicate HasActiveJob(s: State, d: Id) {
    ActiveElsewhere(s.x.t.jobs, d, None)
  }

  lemma CommitLeavesJob(s: State, step: Step)
    requires Enabled(s, step) && DocsOk(s)
    ensures step.Commit? ==> HasActiveJob(Apply(s, step), s.workers[step.worker].doc)
  {
    if step.Commit? {
      var d := s.workers[step.worker].doc;
      assert Eligible(s.t, d, s.workers[step.worker].tenant);
      var u := Apply(s, step);
      if ActiveElsewhere(s.x.t.jobs, d, None) {
        assert u.x.t == s.x.t;
      } else {
        assert step.jobId in u.x.t.jobs && u.x.t.jobs[step.jobId].status.Queued?;
      }
    }
  }

  lemma BecomesReady(s: State, step: Step, d: Id)
    requires Enabled(s, step) && d in s.t.docs && !s.t.docs[d].status.Ready?
    requires d in Apply(s, step).t.docs && Apply(s, step).t.docs[d].status.Ready?
    ensures step.Commit? && s.workers[step.worker].doc == d
  {
    hide Produced, Chunkable;
  }

  /** Becoming ready on the asynchronous path happens only in a commit, and only together with an active extraction job. */
  lemma ReadyComesWithJob(states: seq<State>, steps: seq<Step>, i: nat, d: Id)
    requires Execution(states, steps) && i < |steps|
    requires d in states[i].t.docs && !states[i].t.docs[d].status.Ready?
    requires d in states[i + 1].t.docs && states[i + 1].t.docs[d].status.Ready?
    ensures steps[i].Commit? && steps[i].worker in states[i].workers && states[i].workers[steps[i].worker].doc == d
    ensures HasActiveJob(states[i + 1], d)
  {
    DocsAt(states, steps, i);
    ExecutionAt(states, steps, i);
    hide Execution, ChunksOk;
    BecomesReady(states[i], steps[i], d);
    CommitLeavesJob(states[i], steps[i]);
  }

  // ---------------------------------------------------------------------------
  // Leases
  // ---------------------------------------------------------------------------

  predicate Live(s: State, w: Id)
    requires w in s.workers
  {
    s.x.now <= s.workers[w].claimedAt + CLAIM_LEASE
  }

  ghost predicate HoldsDocument(s: State, w: Id)
    requires w in s.workers
  {
    var d := s.workers[w].doc;
    d in s.t.docs && s.t.docs[d].status.Claimed? && s.t.docs[d].changedAt == s.workers[w].claimedAt
  }

  /** At most one worker holds an unexpired lease on a document, and the document's row says so. */
  ghost predicate LeasesOk(s: State) {
    && (forall w :: w in s.workers && Live(s, w) ==> HoldsDocument(s, w))
    && (forall v, w :: (v in s.workers && w in s.workers && Live(s, v) && Live(s, w)
                        && s.workers[v].doc == s.workers[w].doc) ==> v == w)
  }

  lemma ClockIsMonotone(s: State, step: Step)
    requires Enabled(s, step)
    ensures Apply(s, step).x.now >= s.x.now && (!step.Other? ==> Apply(s, step).x.now == s.x.now)
  {
  }

  /** The document a step writes for a delivery without a live lease: an expired one, or one that never had any. */
  function UnleasedWrite(s: State, step: Step): Option<Id> {
    match step
    case FailUnheld(doc) => Some(doc)
    case Commit(worker, _, _, _, _, _, _, _, _) =>
      if worker in s.workers && !Live(s, worker) then Some(s.workers[worker].doc) else None
    case Fail(worker) => if worker in s.workers && !Live(s, worker) then Some(s.workers[worker].doc) else None
    case _ => None
  }

  ghost predicate HeldLive(s: State, d: Id) {
    exists v :: v in s.workers && Live(s, v) && s.workers[v].doc == d
  }

  /** A write without a live lease on a document that some worker holds one on. */
  ghost predicate LateWrite(s: State, step: Step) {
    UnleasedWrite(s, step).Some? && HeldLive(s, UnleasedWrite(s, step).value)
  }

  lemma LateWriteBreaks(s: State, step: Step)
    requires Enabled(s, step) && LeasesOk(s) && LateWrite(s, step)
    ensures !LeasesOk(Apply(s, step)) && HeldLive(Apply(s, step), UnleasedWrite(s, step).value)
    ensures UnleasedWrite(s, step).value in s.t.docs && Requeueable(Apply(s, step).t, UnleasedWrite(s, step).value)
  {
    var u, d := Apply(s, step), UnleasedWrite(s, step).value;
    var v :| v in s.workers && Live(s, v) && s.workers[v].doc == d;
    ClockIsMonotone(s, step);
    assert HoldsDocument(s, v);
    assert v in u.workers && Live(u, v) && u.workers[v].doc == d;
    assert d in u.t.docs && (u.t.docs[d].status.Failed? || u.t.docs[d].status.Ready?);
    assert !HoldsDocument(u, v);
  }

  lemma OtherStepKeeps(s: State, step: Step)
    requires Enabled(s, step) && LeasesOk(s) && !LateWrite(s, step)
    ensures LeasesOk(Apply(s, step))
  {
    var u := Apply(s, step);
    ClockIsMonotone(s, step);
    forall w | w in u.workers && Live(u, w) ensures HoldsDocument(u, w) {
      if w in s.workers {
        assert u.workers[w] == s.workers[w] && Live(s, w) && HoldsDocument(s, w);
        assert HeldLive(s, s.workers[w].doc);
      }
    }
  }

  /** One step keeps the leases exactly when it is no late write. */
  lemma LeaseStep(s: State, step: Step)
    requires Enabled(s, step) && LeasesOk(s)
    ensures LeasesOk(Apply(s, step)) <==> !LateWrite(s, step)
  {
    ClockIsMonotone(s, step);
    if LateWrite(s, step) {
      LateWriteBreaks(s, step);
    } else {
      OtherStepKeeps(s, step);
    }
  }

  ghost predicate LeasesUpTo(states: seq<State>, n: nat)
    requires n < |states|
  {
    forall i :: 0 <= i <= n ==> LeasesOk(states[i])
  }

  ghost predicate NoLateWrite(states: seq<State>, steps: seq<Step>, n: nat)
    requires n <= |steps| <= |states|
  {
    forall i :: 0 <= i < n ==> !LateWrite(states[i], steps[i])
  }

  lemma LeasesAtStart(states: seq<State>, steps: seq<Step>)
    requires |states| == |steps| + 1 && LeasesOk(states[0])
    ensures LeasesUpTo(states, 0) && NoLateWrite(states, steps, 0)
  {
  }

  lemma LeasesBefore(states: seq<State>, steps: seq<Step>, n: nat)
    requires |states| == |steps| + 1 && 0 < n < |states|
    ensures LeasesUpTo(states, n) <==> LeasesUpTo(states, n - 1) && LeasesOk(states[n])
    ensures LeasesUpTo(states, n - 1) ==> LeasesOk(states[n - 1])
    ensures NoLateWrite(states, steps, n) <==> NoLateWrite(states, steps, n - 1) && !LateWrite(states[n - 1], steps[n - 1])
  {
    hide LeasesOk, LateWrite;
  }

  /**
   * Along any execution, at most one worker holds an unexpired lease on each document and the row says so,
   * in every state up to n, exactly when no step before n is a late write.
   */
  lemma {:induction false} OneLeaseHolder(states: seq<State>, steps: seq<Step>, n: nat)
    requires Execution(states, steps) && n < |states|
    ensures LeasesUpTo(states, n) <==> NoLateWrite(states, steps, n)
  {
    hide *;
    ExecutionLength(states, steps);
    if n == 0 {
      InitInv(states[0]);
      LeasesAtStart(states, steps);
    } else {
      ExecutionAt(states, steps, n - 1);
      OneLeaseHolder(states, steps, n - 1);
      LeasesBefore(states, steps, n);
      if LeasesOk(states[n - 1]) {
        LeaseStep(states[n - 1], steps[n - 1]);
      }
    }
  }

  ghost predicate TwoHolders(s: State, d: Id, v: Id, w: Id) {
    && v != w && v in s.workers && w in s.workers && Live(s, v) && Live(s, w)
    && s.workers[v].doc == d && s.workers[w].doc == d
  }

  lemma FreedIsClaimedAgain(u: State, d: Id, v: Id, w: Id)
    requires v in u.workers && Live(u, v) && u.workers[v].doc == d && w !in u.workers
    requires Requeueable(u.t, d) && u.t.docs[d].storageUri.Some?
    ensures Enabled(u, Reingest(d))
    ensures Enabled(Apply(u, Reingest(d)), Deliver(w, d, u.t.docs[d].tenant))
    ensures TwoHolders(Apply(Apply(u, Reingest(d)), Deliver(w, d, u.t.docs[d].tenant)), d, v, w)
  {
    var queued := Apply(u, Reingest(d));
    assert DocClaimable(queued.t, d, u.t.docs[d].tenant, queued.x.now);
  }

  /** After a late write, a re-ingest request and one more delivery give the document a second live holder. */
  lemma LateWriteSharesLease(s: State, step: Step, w: Id) returns (v: Id, steps: seq<Step>)
    requires Enabled(s, step) && DocsOk(s) && LeasesOk(s) && LateWrite(s, step) && w !in s.workers
    ensures var d := UnleasedWrite(s, step).value;
            && d in s.t.docs && steps == [Reingest(d), Deliver(w, d, s.t.docs[d].tenant)]
            && Enabled(Apply(s, step), steps[0])
            && Enabled(Apply(Apply(s, step), steps[0]), steps[1])
            && TwoHolders(Apply(Apply(Apply(s, step), steps[0]), steps[1]), d, v, w)
  {
    var u, d := Apply(s, step), UnleasedWrite(s, step).value;
    LateWriteBreaks(s, step);
    DocsStep(s, step);
    v :| v in u.workers && Live(u, v) && u.workers[v].doc == d;
    assert Eligible(u.t, d, u.workers[v].tenant) && u.t.docs[d].tenant == s.t.docs[d].tenant;
    assert w !in u.workers;
    hide LateWrite, LeasesOk, DocsOk;
    steps := [Reingest(d), Deliver(w, d, s.t.docs[d].tenant)];
    FreedIsClaimedAgain(u, d, v, w);
  }

  ghost predicate Goes(s: State, step: Step, u: State) {
    Enabled(s, step) && Apply(s, step) == u
  }

  function One(status: DocumentStatus, at: Time): DocTables {
    DocTables(map[0 := Document(1, "hash", Some("uri"), status, at)], map[])
  }

  function Calm(now: Time): X.State {
    X.State(now, Tables(map[], map[], map[], []), {}, map[], {}, [])
  }

  lemma TwoClaims()
    ensures var early, late := Worker(0, 1, 0), Worker(0, 1, 601);
            && Goes(State(DocTables(map[], map[]), map[], [], Calm(0)), UploadAsync(0, 1, "hash", "uri"),
                    State(One(DocumentStatus.Pending, 0), map[], [], Calm(0)))
            && Goes(State(One(DocumentStatus.Pending, 0), map[], [], Calm(0)), Deliver(0, 0, 1),
                    State(One(Claimed, 0), map[0 := early], [], Calm(0)))
            && Goes(State(One(Claimed, 0), map[0 := early], [], Calm(0)), Other(X.Tick(601)),
                    State(One(Claimed, 0), map[0 := early], [], Calm(601)))
            && Goes(State(One(Claimed, 0), map[0 := early], [], Calm(601)), Deliver(1, 0, 1),
                    State(One(Claimed, 601), map[0 := early, 1 := late], [], Calm(601)))
  {
  }

  lemma LateFailure()
    ensures var early, late := Worker(0, 1, 0), Worker(0, 1, 601);
            Goes(State(One(Claimed, 601), map[0 := early, 1 := late], [], Calm(601)), Fail(0),
                 State(One(DocumentStatus.Failed, 601), map[1 := late], [], Calm(601)))
  {
    assert X.Without(map[0 := Worker(0, 1, 0), 1 := Worker(0, 1, 601)], 0) == map[1 := Worker(0, 1, 601)];
  }

  lemma ThirdClaim()
    ensures var late := Worker(0, 1, 601);
            && Goes(State(One(DocumentStatus.Failed, 601), map[1 := late], [], Calm(601)), Reingest(0),
                    State(One(DocumentStatus.Pending, 601), map[1 := late], [], Calm(601)))
            && Goes(State(One(DocumentStatus.Pending, 601), map[1 := late], [], Calm(601)), Deliver(2, 0, 1),
                    State(One(Claimed, 601), map[1 := late, 2 := late], [], Calm(601)))
  {
  }

  lemma Chain(states: seq<State>, steps: seq<Step>)
    requires |states| == |steps| + 1 && InitState(states[0])
    requires forall i :: 0 <= i < |steps| ==> Goes(states[i], steps[i], states[i + 1])
    ensures Execution(states, steps)
  {
    hide Enabled, Apply, InitState;
    forall i | 0 <= i < |steps| ensures Follows(states, steps, i) {
      assert Goes(states[i], steps[i], states[i + 1]);
    }
  }

  /**
   * A late write does happen: from the empty state, a late failure report frees the document under its current
   * holder, and after a re-ingest request a third worker claims it beside that holder.
   */
  lemma LateFailureSharesLease() returns (states: seq<State>, steps: seq<Step>)
    ensures Execution(states, steps) && |states| == 8
    ensures var s := states[7];
            1 in s.workers && 2 in s.workers && s.workers[1].doc == s.workers[2].doc && Live(s, 1) && Live(s, 2)
  {
    hide Goes, Enabled, Apply, Execution;
    TwoClaims();
    LateFailure();
    ThirdClaim();
    var early, late := Worker(0, 1, 0), Worker(0, 1, 601);
    states := [
      State(DocTables(map[], map[]), map[], [], Calm(0)),
      State(One(DocumentStatus.Pending, 0), map[], [], Calm(0)),
      State(One(Claimed, 0), map[0 := early], [], Calm(0)),
      State(One(Claimed, 0), map[0 := early], [], Calm(601)),
      State(One(Claimed, 601), map[0 := early, 1 := late], [], Calm(601)),
      State(One(DocumentStatus.Failed, 601), map[1 := late], [], Calm(601)),
      State(One(DocumentStatus.Pending, 601), map[1 := late], [], Calm(601)),
      State(One(Claimed, 601), map[1 := late, 2 := late], [], Calm(601))];
    steps := [UploadAsync(0, 1, "hash", "uri"), Deliver(0, 0, 1), Other(X.Tick(601)), Deliver(1, 0, 1), Fail(0), Reingest(0),
              Deliver(2, 0, 1)];
    var ss, ts := states, steps;
    forall i | 0 <= i < |ts| ensures Goes(ss[i], ts[i], ss[i + 1]) {
      if i < 4 {
        assert i == 0 || i == 1 || i == 2 || i == 3;
      } else {
        assert i == 4 || i == 5 || i == 6;
      }
    }
    Chain(ss, ts);
  }
}
