/** The local circuit breaker and the shared Redis script: the same decisions, by different bookkeeping. */
module CircuitBreakers {
  import opened Common

  type Time = real

  /** One caller operation, with the time it happens. */
  datatype Op = Check(at: Time) | Success(at: Time) | Failure(at: Time)

  /** The breaker's settings. */
  datatype Settings = Settings(threshold: int, recovery: real)

  // ---------------------------------------------------------------------------
  // What a breaker should do, from the history alone
  // ---------------------------------------------------------------------------

  /** Failures since the last success. */
  function FailureCount(log: seq<Op>): nat {
    if log == [] then 0
    else
      match log[|log| - 1]
      case Check(_) => FailureCount(log[..|log| - 1])
      case Success(_) => 0
      case Failure(_) => FailureCount(log[..|log| - 1]) + 1
  }

  /** The time of the last failure since the last success. */
  function LastFailure(log: seq<Op>): Option<Time> {
    if log == [] then None
    else
      match log[|log| - 1]
      case Check(_) => LastFailure(log[..|log| - 1])
      case Success(_) => None
      case Failure(at) => Some(at)
  }

  /** Requests are refused within the recovery time of the last of at least threshold failures without a success. */
  predicate Refuses(s: Settings, log: seq<Op>, now: Time) {
    && FailureCount(log) >= s.threshold
    && LastFailure(log).Some? && now - LastFailure(log).value < s.recovery
  }

  /** The answers to the operations, each given the ones before it; only a check can be refused. */
  function Expected(s: Settings, ops: seq<Op>): (r: seq<bool>)
    ensures |r| == |ops|
  {
    if ops == [] then []
    else
      var init, op := ops[..|ops| - 1], ops[|ops| - 1];
      Expected(s, init) + [!(op.Check? && Refuses(s, init, op.at))]
  }

  // ---------------------------------------------------------------------------
  // The local breaker
  // ---------------------------------------------------------------------------

  datatype Local = Local(failures: nat, openedAt: Option<Time>)

  const CLOSED := Local(0, None)

  /** One operation on the local breaker: whether it goes through, and the state after it. */
  function LocalStep(s: Settings, b: Local, op: Op): (bool, Local) {
    match op
    case Check(now) =>
      if b.openedAt.None? then (true, b)
      else if now - b.openedAt.value < s.recovery then (false, b)
      else (true, b.(openedAt := None))
    case Success(_) => (true, CLOSED)
    case Failure(now) =>
      (true, Local(b.failures + 1, if b.failures + 1 >= s.threshold then Some(now) else b.openedAt))
  }

  class CircuitBreaker {
    const settings: Settings
    var failures: nat
    var openedAt: Option<Time>

    ghost function State(): Local
      reads this
    {
      Local(failures, openedAt)
    }

    constructor (threshold: int, recovery: real)
      ensures State() == CLOSED && settings == Settings(threshold, recovery)
    {
      settings, failures, openedAt := Settings(threshold, recovery), 0, None;
    }

    /** ok is false where the source raises CircuitOpenError. */
    method EnsureAvailable(now: Time) returns (ok: bool)
      modifies this
      ensures (ok, State()) == LocalStep(settings, old(State()), Check(now))
    {
      if openedAt.Some? {
        if now - openedAt.value < settings.recovery {
          return false;
        }
        openedAt := None;
      }
      return true;
    }

    method RecordSuccess(now: Time)
      modifies this
      ensures (true, State()) == LocalStep(settings, old(State()), Success(now))
    {
      failures := 0;
      openedAt := None;
    }

    method RecordFailure(now: Time)
      modifies this
      ensures (true, State()) == LocalStep(settings, old(State()), Failure(now))
    {
      failures := failures + 1;
      if failures >= settings.threshold {
        openedAt := Some(now);
      }
    }

    /** A call that starts now and, if admitted, succeeds or fails at a later time. */
    method Call(now: Time, succeeds: bool, ended: Time) returns (ok: bool)
      modifies this
      ensures ok == LocalStep(settings, old(State()), Check(now)).0
      ensures var mid := LocalStep(settings, old(State()), Check(now)).1;
              State() == if !ok then mid
                         else LocalStep(settings, mid, if succeeds then Success(ended) else Failure(ended)).1
    {
      ok := EnsureAvailable(now);
      if !ok {
        return;
      }
      if succeeds {
        RecordSuccess(ended);
      } else {
        RecordFailure(ended);
      }
    }
  }

  // ---------------------------------------------------------------------------
  // The Redis script
  // ---------------------------------------------------------------------------

  /** The hash under the key, and when it was last written: a key lives for a while after a write. */
  datatype Stored = Stored(failures: nat, openedAt: Option<Time>, written: Option<Time>)

  const NO_KEY := Stored(0, None, None)
  const KEY_SECONDS := 120.0

  /** One run of the script: its first result, and the hash it leaves. */
  function ScriptStep(s: Settings, k: Stored, op: Op): (bool, Stored) {
    match op
    case Check(now) => (!(k.openedAt.Some? && now - k.openedAt.value < s.recovery), k)
    case Success(now) => (true, Stored(0, None, Some(now)))
    case Failure(now) =>
      (true, Stored(k.failures + 1, if k.failures + 1 >= s.threshold then Some(now) else None, Some(now)))
  }

  /** The key as a run at this time finds it. */
  function Found(k: Stored, now: Time): Stored {
    if k.written.Some? && now - k.written.value >= KEY_SECONDS then NO_KEY else k
  }

  function LocalRun(s: Settings, ops: seq<Op>): (r: (seq<bool>, Local))
    ensures |r.0| == |ops|
  {
    if ops == [] then ([], CLOSED)
    else
      var before := LocalRun(s, ops[..|ops| - 1]);
      var (ok, after) := LocalStep(s, before.1, ops[|ops| - 1]);
      (before.0 + [ok], after)
  }

  /** The script over a run; keys expire or they do not. */
  function ScriptRun(s: Settings, ops: seq<Op>, expiring: bool): (r: (seq<bool>, Stored))
    ensures |r.0| == |ops|
  {
    if ops == [] then ([], NO_KEY)
    else
      var before, op := ScriptRun(s, ops[..|ops| - 1], expiring), ops[|ops| - 1];
      var (ok, after) := ScriptStep(s, if expiring then Found(before.1, op.at) else before.1, op);
      (before.0 + [ok], after)
  }

  // ---------------------------------------------------------------------------
  // Both meet the specification
  // ---------------------------------------------------------------------------

  ghost predicate InOrder(ops: seq<Op>) {
    forall i, j :: 0 <= i < j < |ops| ==> ops[i].at <= ops[j].at
  }

  /** When the breaker would be opened, from the history. */
  function Opening(s: Settings, log: seq<Op>): Option<Time> {
    if FailureCount(log) >= s.threshold then LastFailure(log) else None
  }

  /** The local breaker knows the history's opening, except one whose recovery time is over. */
  ghost predicate LocalKnows(s: Settings, log: seq<Op>, b: Local) {
    && b.failures == FailureCount(log)
    && match b.openedAt
       case Some(at) => Opening(s, log) == Some(at)
       case None => Opening(s, log).None? || (log != [] && log[|log| - 1].at - Opening(s, log).value >= s.recovery)
  }

  lemma {:induction false} LocalMeets(s: Settings, ops: seq<Op>)
    requires InOrder(ops)
    ensures LocalRun(s, ops).0 == Expected(s, ops) && LocalKnows(s, ops, LocalRun(s, ops).1)
  {
    if ops != [] {
      LocalMeets(s, ops[..|ops| - 1]);
    }
  }

  lemma {:induction false} ScriptMeets(s: Settings, ops: seq<Op>)
    ensures ScriptRun(s, ops, false).0 == Expected(s, ops)
    ensures ScriptRun(s, ops, false).1.failures == FailureCount(ops)
    ensures ScriptRun(s, ops, false).1.openedAt == Opening(s, ops)
  {
    if ops != [] {
      ScriptMeets(s, ops[..|ops| - 1]);
    }
  }

  /** The two breakers answer every trace alike, though one clears its opening on recovery and the other keeps it. */
  lemma SameDecisions(s: Settings, ops: seq<Op>)
    requires InOrder(ops)
    ensures LocalRun(s, ops).0 == ScriptRun(s, ops, false).0
  {
    LocalMeets(s, ops);
    ScriptMeets(s, ops);
  }

  // ---------------------------------------------------------------------------
  // What a refusal means
  // ---------------------------------------------------------------------------

  /** The run of operations after the last success. */
  function SinceSuccess(log: seq<Op>): seq<Op> {
    if log == [] || log[|log| - 1].Success? then [] else SinceSuccess(log[..|log| - 1]) + [log[|log| - 1]]
  }

  function Failures(log: seq<Op>): seq<Op> {
    if log == [] then []
    else Failures(log[..|log| - 1]) + if log[|log| - 1].Failure? then [log[|log| - 1]] else []
  }

  lemma {:induction false} FailuresOfSum(a: seq<Op>, op: Op)
    ensures Failures(a + [op]) == Failures(a) + if op.Failure? then [op] else []
  {
    assert (a + [op])[..|a|] == a;
  }

  /** The counters speak of the failures after the last success: how many, and the last. */
  lemma {:induction false} CountersCount(log: seq<Op>)
    ensures FailureCount(log) == |Failures(SinceSuccess(log))|
    ensures Failures(SinceSuccess(log)) == [] ==> LastFailure(log).None?
    ensures Failures(SinceSuccess(log)) != [] ==>
      var f := Failures(SinceSuccess(log)); LastFailure(log) == Some(f[|f| - 1].at)
  {
    if log != [] && !log[|log| - 1].Success? {
      var init, op := log[..|log| - 1], log[|log| - 1];
      CountersCount(init);
      FailuresOfSum(SinceSuccess(init), op);
    }
  }

  /** A check is refused exactly when the failures since the last success reach the threshold and the last is recent. */
  lemma RefusedIff(s: Settings, ops: seq<Op>, now: Time)
    requires InOrder(ops + [Check(now)])
    ensures var f := Failures(SinceSuccess(ops));
            !LocalRun(s, ops + [Check(now)]).0[|ops|] <==>
              (|f| >= s.threshold && f != [] && now - f[|f| - 1].at < s.recovery)
  {
    assert (ops + [Check(now)])[..|ops|] == ops;
    LocalMeets(s, ops + [Check(now)]);
    CountersCount(ops);
  }

  // ---------------------------------------------------------------------------
  // Key expiry
  // ---------------------------------------------------------------------------

  /** No operation comes so long after the last write that the key is gone. */
  ghost predicate KeptAlive(ops: seq<Op>) {
    forall i, j :: 0 <= i < j < |ops| && !ops[i].Check? && (forall k :: i < k < j ==> ops[k].Check?) ==>
      ops[j].at - ops[i].at < KEY_SECONDS
  }

  function LastWrite(ops: seq<Op>): Option<Time> {
    if ops == [] then None
    else if ops[|ops| - 1].Check? then LastWrite(ops[..|ops| - 1])
    else Some(ops[|ops| - 1].at)
  }

  lemma {:induction false} LastWriteIs(ops: seq<Op>)
    ensures LastWrite(ops).Some? ==>
      exists i :: 0 <= i < |ops| && !ops[i].Check? && ops[i].at == LastWrite(ops).value
                  && forall k :: i < k < |ops| ==> ops[k].Check?
  {
    if ops != [] && ops[|ops| - 1].Check? {
      LastWriteIs(ops[..|ops| - 1]);
      if LastWrite(ops).Some? {
        var init := ops[..|ops| - 1];
        var i :| 0 <= i < |init| && !init[i].Check? && init[i].at == LastWrite(init).value
                 && forall k :: i < k < |init| ==> init[k].Check?;
        assert ops[i] == init[i];
        forall k | i < k < |ops| ensures ops[k].Check? {
          assert k < |init| ==> ops[k] == init[k];
        }
      }
    }
  }

  /** A kept-alive key is found by the last operation. */
  lemma KeyIsFound(ops: seq<Op>)
    requires ops != [] && KeptAlive(ops)
    ensures var w := LastWrite(ops[..|ops| - 1]); w.Some? ==> ops[|ops| - 1].at - w.value < KEY_SECONDS
  {
    var init := ops[..|ops| - 1];
    LastWriteIs(init);
    if LastWrite(init).Some? {
      var i :| 0 <= i < |init| && !init[i].Check? && init[i].at == LastWrite(init).value
               && forall k :: i < k < |init| ==> init[k].Check?;
      forall k | i < k < |init| ensures ops[k].Check? {
        assert init[k] == ops[k];
      }
    }
  }

  lemma AlivePrefix(ops: seq<Op>)
    requires ops != [] && KeptAlive(ops)
    ensures KeptAlive(ops[..|ops| - 1])
  {
    var init := ops[..|ops| - 1];
    forall i, j | 0 <= i < j < |init| && !init[i].Check? && (forall k :: i < k < j ==> init[k].Check?)
      ensures init[j].at - init[i].at < KEY_SECONDS
    {
      forall k | i < k < j ensures ops[k].Check? {
        assert init[k] == ops[k];
      }
    }
  }

  /** While the key is kept alive its expiry changes nothing. */
  lemma {:induction false} ExpiryUnseen(s: Settings, ops: seq<Op>)
    requires KeptAlive(ops)
    ensures ScriptRun(s, ops, true) == ScriptRun(s, ops, false)
    ensures ScriptRun(s, ops, false).1.written == LastWrite(ops)
  {
    hide KeptAlive;
    if ops != [] {
      AlivePrefix(ops);
      KeyIsFound(ops);
      ExpiryUnseen(s, ops[..|ops| - 1]);
    }
  }

  /** The shared breaker with expiring keys decides as the local one on every trace that keeps its key alive. */
  lemma SameDecisionsWithExpiry(s: Settings, ops: seq<Op>)
    requires InOrder(ops) && KeptAlive(ops)
    ensures LocalRun(s, ops).0 == ScriptRun(s, ops, true).0
  {
    SameDecisions(s, ops);
    ExpiryUnseen(s, ops);
  }

  // ---------------------------------------------------------------------------
  // Which settings are safe with expiring keys
  // ---------------------------------------------------------------------------

  /** What the expiring store knows of the history, for settings that hide the loss of a key. */
  ghost predicate ExpiringKnows(log: seq<Op>, k: Stored) {
    && (k.openedAt.Some? ==> k.openedAt == LastFailure(log) && k.written == k.openedAt)
    && (k.openedAt.None? && LastFailure(log).Some? ==>
          log != [] && log[|log| - 1].at - LastFailure(log).value >= KEY_SECONDS)
  }

  lemma {:induction false} LastFailureCounts(log: seq<Op>)
    ensures LastFailure(log).Some? <==> FailureCount(log) >= 1
  {
    if log != [] {
      LastFailureCounts(log[..|log| - 1]);
    }
  }

  /** One failure opens, and not for longer than a key lives: a lost key is one whose opening is over. */
  lemma {:induction false} ShortOpeningMeets(s: Settings, ops: seq<Op>)
    requires s.threshold <= 1 && s.recovery <= KEY_SECONDS && InOrder(ops)
    ensures ScriptRun(s, ops, true).0 == Expected(s, ops) && ExpiringKnows(ops, ScriptRun(s, ops, true).1)
  {
    if ops != [] {
      ShortOpeningMeets(s, ops[..|ops| - 1]);
      LastFailureCounts(ops[..|ops| - 1]);
    }
  }

  /** Without a recovery time nothing is ever refused. */
  lemma {:induction false} NoRecoveryMeets(s: Settings, ops: seq<Op>)
    requires s.recovery <= 0.0 && InOrder(ops)
    ensures ScriptRun(s, ops, true).0 == Expected(s, ops)
    ensures var k := ScriptRun(s, ops, true).1; k.openedAt.Some? ==> ops != [] && k.openedAt.value <= ops[|ops| - 1].at
    ensures LastFailure(ops).Some? ==> ops != [] && LastFailure(ops).value <= ops[|ops| - 1].at
  {
    if ops != [] {
      NoRecoveryMeets(s, ops[..|ops| - 1]);
    }
  }

  function FailuresAt(n: nat, at: Time): seq<Op> {
    if n == 0 then [] else FailuresAt(n - 1, at) + [Failure(at)]
  }

  lemma {:induction false} FailuresAtFacts(s: Settings, n: nat, at: Time)
    ensures |FailuresAt(n, at)| == n && (forall i :: 0 <= i < n ==> FailuresAt(n, at)[i] == Failure(at))
    ensures FailureCount(FailuresAt(n, at)) == n
    ensures n > 0 ==> ScriptRun(s, FailuresAt(n, at), true).1.written == Some(at)
    ensures n == 0 ==> ScriptRun(s, FailuresAt(n, at), true).1 == NO_KEY
  {
    if n > 0 {
      FailuresAtFacts(s, n - 1, at);
      assert FailuresAt(n, at)[..n - 1] == FailuresAt(n - 1, at);
    }
  }

  /** One failure short of the threshold, a failure just after the key has gone, and a check at once. */
  function LapsingTrace(s: Settings): seq<Op> {
    FailuresAt(if s.threshold >= 2 then s.threshold - 1 else 0, 0.0) + [Failure(KEY_SECONDS), Check(KEY_SECONDS)]
  }

  lemma OneMore(s: Settings, log: seq<Op>, op: Op)
    ensures Expected(s, log + [op]) == Expected(s, log) + [!(op.Check? && Refuses(s, log, op.at))]
    ensures var before := ScriptRun(s, log, true);
            var (ok, after) := ScriptStep(s, Found(before.1, op.at), op);
            ScriptRun(s, log + [op], true) == (before.0 + [ok], after)
  {
    assert (log + [op])[..|log|] == log;
    hide Refuses, ScriptStep, Found;
  }

  lemma OneMoreFailure(log: seq<Op>, at: Time)
    ensures FailureCount(log + [Failure(at)]) == FailureCount(log) + 1 && LastFailure(log + [Failure(at)]) == Some(at)
  {
    assert (log + [Failure(at)])[..|log|] == log;
  }

  lemma LapsingInOrder(s: Settings)
    ensures InOrder(LapsingTrace(s))
  {
    FailuresAtFacts(s, if s.threshold >= 2 then s.threshold - 1 else 0, 0.0);
  }

  lemma LapsingTraceDiffers(s: Settings)
    requires s.threshold >= 2 && s.recovery > 0.0
    ensures InOrder(LapsingTrace(s)) && LocalRun(s, LapsingTrace(s)).0 != ScriptRun(s, LapsingTrace(s), true).0
  {
    var n := s.threshold - 1;
    var first := FailuresAt(n, 0.0);
    var second := first + [Failure(KEY_SECONDS)];
    assert LapsingTrace(s) == second + [Check(KEY_SECONDS)];
    hide LapsingTrace, FailuresAt, InOrder, LocalRun, ScriptRun, Expected, FailureCount, LastFailure;
    LapsingInOrder(s);
    FailuresAtFacts(s, n, 0.0);
    OneMoreFailure(first, KEY_SECONDS);
    OneMore(s, first, Failure(KEY_SECONDS));
    OneMore(s, second, Check(KEY_SECONDS));
    LocalMeets(s, second + [Check(KEY_SECONDS)]);
    assert !Expected(s, second + [Check(KEY_SECONDS)])[n + 1] && ScriptRun(s, second + [Check(KEY_SECONDS)], true).0[n + 1];
  }

  /** A failure and a check when its key has just gone. */
  lemma LongOpeningDiffers(s: Settings)
    requires s.threshold <= 1 && s.recovery > KEY_SECONDS
    ensures var ops := [Failure(0.0), Check(KEY_SECONDS)];
            InOrder(ops) && LocalRun(s, ops).0 != ScriptRun(s, ops, true).0
  {
    var one, ops := [Failure(0.0)], [Failure(0.0), Check(KEY_SECONDS)];
    assert one[..0] == [] && ops[..1] == one;
    LocalMeets(s, ops);
    assert FailureCount(one) == 1 && LastFailure(one) == Some(0.0);
    assert ScriptRun(s, one, true).1.written == Some(0.0);
    assert !Expected(s, ops)[1] && ScriptRun(s, ops, true).0[1];
  }

  ghost predicate AgreesWithExpiry(s: Settings, ops: seq<Op>) {
    InOrder(ops) ==> LocalRun(s, ops).0 == ScriptRun(s, ops, true).0
  }

  lemma SafeSettingsAgree(s: Settings, ops: seq<Op>)
    requires s.recovery <= 0.0 || (s.threshold <= 1 && s.recovery <= KEY_SECONDS)
    ensures AgreesWithExpiry(s, ops)
  {
    if InOrder(ops) {
      LocalMeets(s, ops);
      if s.recovery <= 0.0 {
        NoRecoveryMeets(s, ops);
      } else {
        ShortOpeningMeets(s, ops);
      }
    }
  }

  /**
   * The shared breaker with expiring keys decides as the local one on every trace exactly when nothing is ever
   * refused, or when a single failure opens the circuit and not for longer than a key lives.
   */
  lemma AgreesWithExpiryIff(s: Settings)
    ensures (forall ops :: AgreesWithExpiry(s, ops))
            <==> s.recovery <= 0.0 || (s.threshold <= 1 && s.recovery <= KEY_SECONDS)
  {
    if s.recovery <= 0.0 || (s.threshold <= 1 && s.recovery <= KEY_SECONDS) {
      forall ops ensures AgreesWithExpiry(s, ops) {
        SafeSettingsAgree(s, ops);
      }
    } else if s.threshold >= 2 {
      LapsingTraceDiffers(s);
      assert !AgreesWithExpiry(s, LapsingTrace(s));
    } else {
      LongOpeningDiffers(s);
      assert !AgreesWithExpiry(s, [Failure(0.0), Check(KEY_SECONDS)]);
    }
  }
}
