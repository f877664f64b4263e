/** The rate limiter: one lazily refilled bucket, the capped map of buckets, and the shared script. */
module TokenBucket {
  import opened Common

  /** What is stored for one subject and key: the tokens left when it was last written. */
  datatype Bucket = Bucket(tokens: real, updated: real)

  /** The limit one call site asks for; the refill rate is capacity / window. */
  datatype Limit = Limit(capacity: int, window: real) {
    ghost predicate Valid() {
      capacity > 0 && window > 0.0
    }

    function Rate(): real
      requires window > 0.0
    {
      capacity as real / window
    }
  }

  type ValidLimit = l: Limit | l.Valid() witness Limit(1, 60.0)

  function Min(a: real, b: real): real {
    if a <= b then a else b
  }

  /** Tokens refilled over a span of time, before the cap. */
  function Gain(limit: ValidLimit, span: real): real {
    span * limit.Rate()
  }

  /** Tokens available at a time; an absent bucket is a full one. */
  function Level(b: Option<Bucket>, limit: ValidLimit, now: real): real {
    match b
    case None => limit.capacity as real
    case Some(Bucket(tokens, updated)) => Min(limit.capacity as real, tokens + Gain(limit, now - updated))
  }

  predicate Admits(b: Option<Bucket>, limit: ValidLimit, now: real) {
    Level(b, limit, now) >= 1.0
  }

  /** A rejection stores nothing. */
  function After(b: Option<Bucket>, limit: ValidLimit, now: real): Option<Bucket> {
    if Admits(b, limit, now) then Some(Bucket(Level(b, limit, now) - 1.0, now)) else b
  }

  // ---------------------------------------------------------------------------
  // One bucket over a run of checks
  // ---------------------------------------------------------------------------

  predicate Ordered(times: seq<real>) {
    forall i, j :: 0 <= i < j < |times| ==> times[i] <= times[j]
  }

  function AfterAll(b: Option<Bucket>, limit: ValidLimit, times: seq<real>): Option<Bucket> {
    if times == [] then b
    else After(AfterAll(b, limit, times[..|times| - 1]), limit, times[|times| - 1])
  }

  function Decisions(b: Option<Bucket>, limit: ValidLimit, times: seq<real>): (r: seq<bool>)
    ensures |r| == |times|
  {
    if times == [] then []
    else
      var n := |times| - 1;
      Decisions(b, limit, times[..n]) + [Admits(AfterAll(b, limit, times[..n]), limit, times[n])]
  }

  function Admitted(decisions: seq<bool>): nat {
    if decisions == [] then 0
    else Admitted(decisions[..|decisions| - 1]) + if decisions[|decisions| - 1] then 1 else 0
  }

  /** A stored bucket that has never gone below zero and was written no later than a given time. */
  predicate Sound(b: Option<Bucket>, now: real) {
    b.Some? ==> b.value.tokens >= 0.0 && b.value.updated <= now
  }

  lemma GainFacts(limit: ValidLimit, x: real, t: real, u: real)
    ensures Gain(limit, t - x) + Gain(limit, u - t) == Gain(limit, u - x)
    ensures x <= t ==> Gain(limit, t - x) >= 0.0
    ensures t <= u ==> Gain(limit, u - t) >= 0.0
    ensures Gain(limit, 0.0) == 0.0 && Gain(limit, limit.window) == limit.capacity as real
  {
    RatePositive(limit);
    Distribute(t - x, u - t, limit.Rate());
    assert (t - x) + (u - t) == u - x;
  }

  lemma GainAdds(limit: ValidLimit, x: real, t: real, u: real)
    ensures Gain(limit, t - x) + Gain(limit, u - t) == Gain(limit, u - x)
  {
    GainFacts(limit, x, t, u);
  }

  lemma RatePositive(limit: ValidLimit)
    ensures limit.Rate() > 0.0 && limit.window * limit.Rate() == limit.capacity as real
  {
  }

  lemma Distribute(a: real, b: real, r: real)
    requires r > 0.0
    ensures a * r + b * r == (a + b) * r
    ensures (a >= 0.0 ==> a * r >= 0.0) && (b >= 0.0 ==> b * r >= 0.0)
    ensures 0.0 * r == 0.0
  {
  }

  /** Levels compose: refilling in two steps is refilling once, cap included. */
  lemma LevelComposes(b: Option<Bucket>, limit: ValidLimit, t: real, u: real)
    requires Sound(b, t) && t <= u
    ensures Level(b, limit, u) == Min(limit.capacity as real, Level(b, limit, t) + Gain(limit, u - t))
    ensures Level(b, limit, t) >= 0.0 && Sound(b, u)
  {
    var x := if b.Some? then b.value.updated else t;
    GainFacts(limit, x, t, u);
  }

  lemma FreshLevel(tokens: real, limit: ValidLimit, now: real)
    requires tokens <= limit.capacity as real
    ensures Level(Some(Bucket(tokens, now)), limit, now) == tokens
  {
    GainFacts(limit, now, now, now);
    assert now - now == 0.0;
  }

  lemma AfterIsSound(b: Option<Bucket>, limit: ValidLimit, now: real)
    requires Sound(b, now)
    ensures Sound(After(b, limit, now), now)
    ensures Level(After(b, limit, now), limit, now) == Level(b, limit, now) - if Admits(b, limit, now) then 1.0 else 0.0
  {
    if Admits(b, limit, now) {
      FreshLevel(Level(b, limit, now) - 1.0, limit, now);
    }
  }

  lemma {:induction false} RunIsSound(b: Option<Bucket>, limit: ValidLimit, times: seq<real>, start: real)
    requires Sound(b, start) && Ordered(times) && (times != [] ==> start <= times[0])
    ensures Sound(AfterAll(b, limit, times), if times == [] then start else times[|times| - 1])
  {
    if times != [] {
      var n := |times| - 1;
      RunIsSound(b, limit, times[..n], start);
      var s := AfterAll(b, limit, times[..n]);
      LevelComposes(s, limit, if n == 0 then start else times[n - 1], times[n]);
      AfterIsSound(s, limit, times[n]);
    }
  }

  /** Tokens added between consecutive checks, without the cap. */
  function Refilled(limit: ValidLimit, times: seq<real>): real {
    if |times| <= 1 then 0.0
    else
      var n := |times| - 1;
      Refilled(limit, times[..n]) + Gain(limit, times[n] - times[n - 1])
  }

  lemma {:induction false} RefilledIsProportional(limit: ValidLimit, times: seq<real>)
    requires times != []
    ensures Refilled(limit, times) == Gain(limit, times[|times| - 1] - times[0])
  {
    var n := |times| - 1;
    if n == 0 {
      GainFacts(limit, times[0], times[0], times[0]);
    } else {
      RefilledIsProportional(limit, times[..n]);
      GainFacts(limit, times[0], times[n - 1], times[n]);
    }
  }

  function Spent(b: Option<Bucket>, limit: ValidLimit, times: seq<real>): nat {
    Admitted(Decisions(b, limit, times))
  }

  lemma SpentStep(b: Option<Bucket>, limit: ValidLimit, times: seq<real>, n: nat)
    requires n + 1 == |times|
    ensures Spent(b, limit, times) as real == Spent(b, limit, times[..n]) as real
              + if Admits(AfterAll(b, limit, times[..n]), limit, times[n]) then 1.0 else 0.0
  {
    assert Decisions(b, limit, times)[..n] == Decisions(b, limit, times[..n]);
  }

  /** One more check: what it admits and what is left add up to what was there, plus refill. */
  lemma CheckIsPaidFor(s: Option<Bucket>, limit: ValidLimit, t: real, u: real)
    requires Sound(s, t) && t <= u
    ensures Sound(After(s, limit, u), u)
    ensures (if Admits(s, limit, u) then 1.0 else 0.0) + Level(After(s, limit, u), limit, u)
            <= Level(s, limit, t) + Gain(limit, u - t)
  {
    LevelComposes(s, limit, t, u);
    AfterIsSound(s, limit, u);
  }

  /** Every admission is paid for: by the level at the start, or by refill since. */
  lemma {:induction false} AdmissionsArePaidFor(b: Option<Bucket>, limit: ValidLimit, times: seq<real>)
    requires times != [] && Ordered(times) && Sound(b, times[0])
    ensures Sound(AfterAll(b, limit, times), times[|times| - 1])
    ensures Spent(b, limit, times) as real + Level(AfterAll(b, limit, times), limit, times[|times| - 1])
            <= Level(b, limit, times[0]) + Refilled(limit, times)
  {
    var n := |times| - 1;
    SpentStep(b, limit, times, n);
    if n == 0 {
      AfterIsSound(b, limit, times[n]);
      assert times[..n] == [] && AfterAll(b, limit, []) == b && Spent(b, limit, []) == 0;
    } else {
      var init, t, u := times[..n], times[n - 1], times[n];
      AdmissionsArePaidFor(b, limit, init);
      var s := AfterAll(b, limit, init);
      CheckIsPaidFor(s, limit, t, u);
    }
  }

  lemma {:induction false} DecisionsSplit(b: Option<Bucket>, limit: ValidLimit, times: seq<real>, i: nat)
    requires i <= |times|
    ensures Decisions(b, limit, times)[i..] == Decisions(AfterAll(b, limit, times[..i]), limit, times[i..])
    ensures AfterAll(b, limit, times) == AfterAll(AfterAll(b, limit, times[..i]), limit, times[i..])
    decreases |times|
  {
    var n := |times| - 1;
    if i <= n {
      DecisionsSplit(b, limit, times[..n], i);
      assert times[..n][..i] == times[..i] && times[..n][i..] == times[i..n];
      assert times[i..][..n - i] == times[i..n];
    } else {
      assert times[..i] == times && times[i..] == [];
    }
  }

  /** In any window of a run, at most C + d * C / W checks are admitted over a span of length d. */
  lemma IntervalBound(limit: ValidLimit, times: seq<real>, i: nat, j: nat)
    requires Ordered(times) && i < j <= |times|
    ensures Admitted(Decisions(None, limit, times)[i..j]) as real
            <= limit.capacity as real + Gain(limit, times[j - 1] - times[i])
  {
    PrefixIsSound(limit, times, i);
    WindowEnds(times, i, j);
    var b, window := AfterAll(None, limit, times[..i]), times[i..j];
    RunBound(b, limit, window);
    assert Admitted(Decisions(None, limit, times)[i..j]) == Spent(b, limit, window) by {
      WindowDecisions(limit, times, i, j);
    }
  }

  lemma WindowEnds(times: seq<real>, i: nat, j: nat)
    requires Ordered(times) && i < j <= |times|
    ensures Ordered(times[i..j]) && times[i..j][0] == times[i] && times[i..j][j - i - 1] == times[j - 1]
  {
  }

  lemma PrefixIsSound(limit: ValidLimit, times: seq<real>, i: nat)
    requires Ordered(times) && i < |times|
    ensures Sound(AfterAll(None, limit, times[..i]), times[i])
  {
    RunIsSound(None, limit, times[..i], times[0]);
  }

  lemma WindowDecisions(limit: ValidLimit, times: seq<real>, i: nat, j: nat)
    requires i < j <= |times|
    ensures Decisions(None, limit, times)[i..j] == Decisions(AfterAll(None, limit, times[..i]), limit, times[i..j])
  {
    DecisionsPrefix(None, limit, times, j);
    DecisionsSplit(None, limit, times[..j], i);
    assert times[..j][..i] == times[..i] && times[..j][i..] == times[i..j];
    assert Decisions(None, limit, times)[i..j] == Decisions(None, limit, times[..j])[i..];
  }

  lemma RunBound(b: Option<Bucket>, limit: ValidLimit, times: seq<real>)
    requires times != [] && Ordered(times) && Sound(b, times[0])
    ensures Spent(b, limit, times) as real
            <= limit.capacity as real + Gain(limit, times[|times| - 1] - times[0])
  {
    AdmissionsArePaidFor(b, limit, times);
    RefilledIsProportional(limit, times);
    var last := times[|times| - 1];
    LevelComposes(AfterAll(b, limit, times), limit, last, last);
    LevelIsCapped(b, limit, times[0]);
  }

  lemma LevelIsCapped(b: Option<Bucket>, limit: ValidLimit, now: real)
    ensures Level(b, limit, now) <= limit.capacity as real
  {
  }

  lemma {:induction false} DecisionsPrefix(b: Option<Bucket>, limit: ValidLimit, times: seq<real>, j: nat)
    requires j <= |times|
    ensures Decisions(b, limit, times)[..j] == Decisions(b, limit, times[..j])
  {
    if j < |times| {
      DecisionsPrefix(b, limit, times[..|times| - 1], j);
      assert times[..|times| - 1][..j] == times[..j];
    } else {
      assert times[..j] == times;
    }
  }

  // ---------------------------------------------------------------------------
  // Against a bucket that is refilled continuously
  // ---------------------------------------------------------------------------

  datatype Event = Tick(at: real) | Check(at: real)

  /** The reference bucket: refilled and written back at every event, whether or not a check is admitted. */
  datatype Continuous = Continuous(level: real, at: real) {
    function Refill(limit: ValidLimit, now: real): Continuous {
      Continuous(Min(limit.capacity as real, level + Gain(limit, now - at)), now)
    }
  }

  function ContinuousTrace(c: Continuous, limit: ValidLimit, events: seq<Event>): seq<bool>
    decreases |events|
  {
    if events == [] then []
    else
      var full := c.Refill(limit, events[0].at);
      if events[0].Tick? then ContinuousTrace(full, limit, events[1..])
      else if full.level >= 1.0 then [true] + ContinuousTrace(full.(level := full.level - 1.0), limit, events[1..])
      else [false] + ContinuousTrace(full, limit, events[1..])
  }

  function LazyTrace(b: Option<Bucket>, limit: ValidLimit, events: seq<Event>): seq<bool>
    decreases |events|
  {
    if events == [] then []
    else if events[0].Tick? then LazyTrace(b, limit, events[1..])
    else [Admits(b, limit, events[0].at)] + LazyTrace(After(b, limit, events[0].at), limit, events[1..])
  }

  predicate EventsFrom(start: real, events: seq<Event>)
    decreases |events|
  {
    events == [] || (start <= events[0].at && EventsFrom(events[0].at, events[1..]))
  }

  /** The lazy bucket decides as the continuously refilled one does, however often that one is refilled. */
  lemma {:induction false} LazyRefinesContinuous(
    b: Option<Bucket>, c: Continuous, limit: ValidLimit, events: seq<Event>)
    requires Sound(b, c.at) && c.level == Level(b, limit, c.at) && EventsFrom(c.at, events)
    ensures LazyTrace(b, limit, events) == ContinuousTrace(c, limit, events)
    decreases |events|
  {
    if events != [] {
      var now := events[0].at;
      LevelComposes(b, limit, c.at, now);
      AfterIsSound(b, limit, now);
      var full := c.Refill(limit, now);
      if events[0].Tick? {
        LazyRefinesContinuous(b, full, limit, events[1..]);
      } else if full.level >= 1.0 {
        LazyRefinesContinuous(After(b, limit, now), full.(level := full.level - 1.0), limit, events[1..]);
      } else {
        LazyRefinesContinuous(b, full, limit, events[1..]);
      }
    }
  }

  // ---------------------------------------------------------------------------
  // The capped map
  // ---------------------------------------------------------------------------

  /** The bucket dictionary in insertion order. */
  type Table<K> = seq<(K, Bucket)>

  predicate UniqueKeys<K(==)>(entries: Table<K>) {
    forall i, j :: 0 <= i < j < |entries| ==> entries[i].0 != entries[j].0
  }

  function Find<K(==)>(entries: Table<K>, key: K): Option<Bucket> {
    if entries == [] then None
    else if entries[0].0 == key then Some(entries[0].1)
    else Find(entries[1..], key)
  }

  /** Assignment keeps the position of a present key and appends an absent one. */
  function Put<K(==)>(entries: Table<K>, key: K, b: Bucket): Table<K> {
    if entries == [] then [(key, b)]
    else if entries[0].0 == key then [(key, b)] + entries[1..]
    else [entries[0]] + Put(entries[1..], key, b)
  }

  predicate Idle(b: Bucket, limit: ValidLimit, now: real) {
    b.tokens + Gain(limit, now - b.updated) >= limit.capacity as real
  }

  /** The position of the first idle bucket, or the length when none is idle. */
  function FirstIdle<K>(entries: Table<K>, limit: ValidLimit, now: real): (i: nat)
    ensures i <= |entries|
    ensures forall j :: 0 <= j < i ==> !Idle(entries[j].1, limit, now)
    ensures i < |entries| ==> Idle(entries[i].1, limit, now)
  {
    if entries == [] || Idle(entries[0].1, limit, now) then 0 else 1 + FirstIdle(entries[1..], limit, now)
  }

  /** The first idle bucket goes, else the oldest. */
  function Victim<K>(entries: Table<K>, limit: ValidLimit, now: real): (i: nat)
    ensures entries != [] ==> i < |entries|
  {
    var i := FirstIdle(entries, limit, now);
    if i < |entries| then i else 0
  }

  function Evicted<K>(entries: Table<K>, limit: ValidLimit, now: real): Table<K>
    requires entries != []
  {
    var i := Victim(entries, limit, now);
    entries[..i] + entries[i + 1..]
  }

  predicate MustEvict<K(==)>(entries: Table<K>, maxBuckets: nat, key: K) {
    |entries| >= maxBuckets && Find(entries, key).None?
  }

  /** The table after one check at `now`, whose eviction, if any, reads the clock again at `later`. */
  function Checked<K(==)>(entries: Table<K>, maxBuckets: nat, key: K, limit: ValidLimit, now: real, later: real): Table<K>
  {
    var b := Find(entries, key);
    if !Admits(b, limit, now) then entries
    else
      var room := if MustEvict(entries, maxBuckets, key) && entries != [] then Evicted(entries, limit, later) else entries;
      Put(room, key, Bucket(Level(b, limit, now) - 1.0, now))
  }

  lemma {:induction false} FindFacts<K>(entries: Table<K>, key: K)
    ensures Find(entries, key).None? <==> forall i :: 0 <= i < |entries| ==> entries[i].0 != key
    ensures Find(entries, key).Some? ==> exists i :: 0 <= i < |entries| && entries[i] == (key, Find(entries, key).value)
  {
    if entries != [] && entries[0].0 != key {
      FindFacts(entries[1..], key);
      if Find(entries, key).Some? {
        var i :| 0 <= i < |entries[1..]| && entries[1..][i] == (key, Find(entries, key).value);
        assert entries[i + 1] == entries[1..][i];
      }
      assert forall i :: 1 <= i < |entries| ==> entries[i] == entries[1..][i - 1];
    }
  }

  lemma {:induction false} PutFacts<K>(entries: Table<K>, key: K, b: Bucket)
    requires UniqueKeys(entries)
    ensures UniqueKeys(Put(entries, key, b))
    ensures |Put(entries, key, b)| == |entries| + if Find(entries, key).None? then 1 else 0
    ensures forall i :: 0 <= i < |Put(entries, key, b)| ==>
              Put(entries, key, b)[i].0 == key || (i < |entries| && Put(entries, key, b)[i] == entries[i])
    ensures forall k :: Find(Put(entries, key, b), k) == if k == key then Some(b) else Find(entries, k)
  {
    if entries != [] && entries[0].0 != key {
      PutFacts(entries[1..], key, b);
    }
  }

  lemma {:induction false} EvictedFind<K>(entries: Table<K>, i: nat, k: K)
    requires UniqueKeys(entries) && i < |entries|
    ensures Find(entries[..i] + entries[i + 1..], k) == if k == entries[i].0 then None else Find(entries, k)
  {
    var less := entries[..i] + entries[i + 1..];
    if i == 0 {
      FindFacts(entries[1..], k);
      assert less == entries[1..];
      if k == entries[0].0 {
        assert forall j :: 0 <= j < |entries[1..]| ==> entries[1..][j] == entries[j + 1];
      }
    } else {
      assert less[1..] == entries[1..][..i - 1] + entries[1..][i..];
      EvictedFind(entries[1..], i - 1, k);
    }
  }

  lemma DroppedIsUnique<K>(entries: Table<K>, i: nat)
    requires UniqueKeys(entries) && i < |entries|
    ensures UniqueKeys(entries[..i] + entries[i + 1..])
  {
    var less := entries[..i] + entries[i + 1..];
    assert forall j :: 0 <= j < |less| ==> less[j] == entries[if j < i then j else j + 1];
  }

  /** Keys stay unique and the map stays within its cap, whatever is checked. */
  lemma CheckKeepsCap<K>(entries: Table<K>, maxBuckets: nat, key: K, limit: ValidLimit, now: real, later: real)
    requires UniqueKeys(entries) && |entries| <= maxBuckets && maxBuckets > 0
    ensures UniqueKeys(Checked(entries, maxBuckets, key, limit, now, later))
    ensures |Checked(entries, maxBuckets, key, limit, now, later)| <= maxBuckets
  {
    if Admits(Find(entries, key), limit, now) {
      var b := Bucket(Level(Find(entries, key), limit, now) - 1.0, now);
      if MustEvict(entries, maxBuckets, key) {
        DroppedIsUnique(entries, Victim(entries, limit, later));
        PutFacts(Evicted(entries, limit, later), key, b);
      } else {
        PutFacts(entries, key, b);
      }
    }
  }

  datatype Outcome = Allowed | RateLimited | InvalidCapacity

  class TokenBucketLimiter<K(==)> {
    const maxBuckets: nat
    var buckets: Table<K>

    ghost predicate Valid()
      reads this
    {
      maxBuckets > 0 && UniqueKeys(buckets) && |buckets| <= maxBuckets
    }

    constructor (maxBuckets: nat)
      requires maxBuckets > 0
      ensures Valid() && buckets == [] && this.maxBuckets == maxBuckets
    {
      this.maxBuckets := maxBuckets;
      buckets := [];
    }

    /** check: the clock is read once for the bucket and, on an eviction, once more. */
    method Check(key: K, capacity: int, window: real, now: real, later: real) returns (r: Outcome)
      requires Valid() && window > 0.0
      modifies this
      ensures Valid()
      ensures capacity <= 0 ==> r == InvalidCapacity && buckets == old(buckets)
      ensures capacity > 0 ==>
        && r == (if Admits(Find(old(buckets), key), Limit(capacity, window), now) then Allowed else RateLimited)
        && buckets == Checked(old(buckets), maxBuckets, key, Limit(capacity, window), now, later)
    {
      if capacity <= 0 {
        return InvalidCapacity;
      }
      var limit: ValidLimit := Limit(capacity, window);
      CheckKeepsCap(buckets, maxBuckets, key, limit, now, later);
      var found := Find(buckets, key);
      var tokens, updated := capacity as real, now;
      if found.Some? {
        tokens, updated := found.value.tokens, found.value.updated;
      }
      assert found.None? ==> Gain(limit, now - updated) == 0.0;
      tokens := Min(capacity as real, tokens + Gain(limit, now - updated));
      assert tokens == Level(found, limit, now);
      if tokens < 1.0 {
        return RateLimited;
      }
      if |buckets| >= maxBuckets && found.None? {
        EvictIdle(limit, later);
      }
      buckets := Put(buckets, key, Bucket(tokens - 1.0, now));
      return Allowed;
    }

    /** _evict_idle: scan in insertion order, stop once below the cap, else pop the oldest. */
    method EvictIdle(limit: ValidLimit, now: real)
      requires Valid() && |buckets| == maxBuckets
      modifies this
      ensures buckets == Evicted(old(buckets), limit, now)
    {
      var snapshot := buckets;
      for i := 0 to |snapshot|
        invariant buckets == snapshot == old(buckets)
        invariant forall j :: 0 <= j < i ==> !Idle(snapshot[j].1, limit, now)
      {
        if Idle(snapshot[i].1, limit, now) {
          buckets := buckets[..i] + buckets[i + 1..];
          if |buckets| < maxBuckets {
            return;
          }
        }
      }
      if buckets != [] {
        buckets := buckets[1..];
      }
    }
  }

  // ---------------------------------------------------------------------------
  // Runs over the capped map, each subject under its own limit
  // ---------------------------------------------------------------------------

  datatype Request<K> = Request(key: K, now: real, later: real)

  predicate RequestsFrom<K>(start: real, reqs: seq<Request<K>>)
    decreases |reqs|
  {
    reqs == [] || (start <= reqs[0].now <= reqs[0].later && RequestsFrom(reqs[0].later, reqs[1..]))
  }

  /** One request: the caller asks for its own limit, and an eviction judges every bucket by that limit. */
  function Served<K(==)>(entries: Table<K>, maxBuckets: nat, own: K -> ValidLimit, q: Request<K>): Table<K> {
    Checked(entries, maxBuckets, q.key, own(q.key), q.now, q.later)
  }

  function BoundedTrace<K(==)>(
    entries: Table<K>, maxBuckets: nat, own: K -> ValidLimit, reqs: seq<Request<K>>): (r: seq<bool>)
    ensures |r| == |reqs|
    decreases |reqs|
  {
    if reqs == [] then []
    else
      var q := reqs[0];
      [Admits(Find(entries, q.key), own(q.key), q.now)]
      + BoundedTrace(Served(entries, maxBuckets, own, q), maxBuckets, own, reqs[1..])
  }

  function TableAfter<K(==)>(entries: Table<K>, maxBuckets: nat, own: K -> ValidLimit, reqs: seq<Request<K>>): Table<K>
    decreases |reqs|
  {
    if reqs == [] then entries
    else TableAfter(Served(entries, maxBuckets, own, reqs[0]), maxBuckets, own, reqs[1..])
  }

  /** This request drives out the bucket of another subject. */
  predicate Evicts<K(==)>(entries: Table<K>, maxBuckets: nat, own: K -> ValidLimit, q: Request<K>) {
    Admits(Find(entries, q.key), own(q.key), q.now) && MustEvict(entries, maxBuckets, q.key) && entries != []
  }

  function VictimOf<K(==)>(entries: Table<K>, own: K -> ValidLimit, q: Request<K>): (e: (K, Bucket))
    requires entries != []
    ensures e in entries
  {
    entries[Victim(entries, own(q.key), q.later)]
  }

  // ---------------------------------------------------------------------------
  // One subject's share of a run
  // ---------------------------------------------------------------------------

  predicate EvictsKey<K(==)>(entries: Table<K>, maxBuckets: nat, own: K -> ValidLimit, q: Request<K>, key: K) {
    Evicts(entries, maxBuckets, own, q) && VictimOf(entries, own, q).0 == key
  }

  /** How often a run drives out one subject's bucket. */
  function Evictions<K(==)>(
    entries: Table<K>, maxBuckets: nat, own: K -> ValidLimit, reqs: seq<Request<K>>, key: K): nat
    decreases |reqs|
  {
    if reqs == [] then 0
    else
      (if EvictsKey(entries, maxBuckets, own, reqs[0], key) then 1 else 0)
      + Evictions(Served(entries, maxBuckets, own, reqs[0]), maxBuckets, own, reqs[1..], key)
  }

  function TimesOf<K(==)>(reqs: seq<Request<K>>, key: K): seq<real>
    decreases |reqs|
  {
    if reqs == [] then [] else (if reqs[0].key == key then [reqs[0].now] else []) + TimesOf(reqs[1..], key)
  }

  /** The replies one subject gets. */
  function RepliesTo<K(==)>(replies: seq<bool>, reqs: seq<Request<K>>, key: K): seq<bool>
    requires |replies| == |reqs|
    decreases |reqs|
  {
    if reqs == [] then []
    else (if reqs[0].key == key then [replies[0]] else []) + RepliesTo(replies[1..], reqs[1..], key)
  }

  /** What one request does to any subject's bucket: the caller's is written, an evicted one is gone. */
  lemma ServedFind<K(!new)>(entries: Table<K>, maxBuckets: nat, own: K -> ValidLimit, q: Request<K>, key: K)
    requires UniqueKeys(entries)
    ensures UniqueKeys(Served(entries, maxBuckets, own, q))
    ensures Find(Served(entries, maxBuckets, own, q), key)
            == if key == q.key then After(Find(entries, key), own(key), q.now)
               else if EvictsKey(entries, maxBuckets, own, q, key) then None
               else Find(entries, key)
  {
    hide Level, Admits, Idle, Put, Find, UniqueKeys, FirstIdle;
    if Admits(Find(entries, q.key), own(q.key), q.now) {
      var b := Bucket(Level(Find(entries, q.key), own(q.key), q.now) - 1.0, q.now);
      if Evicts(entries, maxBuckets, own, q) {
        var i := Victim(entries, own(q.key), q.later);
        DroppedIsUnique(entries, i);
        EvictedFind(entries, i, key);
        PutFacts(entries[..i] + entries[i + 1..], q.key, b);
      } else {
        PutFacts(entries, q.key, b);
      }
    }
  }

  lemma DecisionsStep(b: Option<Bucket>, limit: ValidLimit, times: seq<real>)
    requires times != []
    ensures Decisions(b, limit, times) == [Admits(b, limit, times[0])] + Decisions(After(b, limit, times[0]), limit, times[1..])
  {
    DecisionsSplit(b, limit, times, 1);
    DecisionsPrefix(b, limit, times, 1);
    hide Admits, After;
    assert times[..1] == [times[0]] && [times[0]][..0] == [];
    assert Decisions(b, limit, [times[0]]) == [Admits(b, limit, times[0])];
    assert AfterAll(b, limit, [times[0]]) == After(b, limit, times[0]);
  }

  /** While its bucket is not driven out, a subject's checks in a run of the capped map are one bucket's run. */
  lemma {:induction false} RepliesAreOneBucket<K(!new)>(
    entries: Table<K>, maxBuckets: nat, own: K -> ValidLimit, reqs: seq<Request<K>>, key: K)
    requires UniqueKeys(entries) && Evictions(entries, maxBuckets, own, reqs, key) == 0
    ensures RepliesTo(BoundedTrace(entries, maxBuckets, own, reqs), reqs, key)
            == Decisions(Find(entries, key), own(key), TimesOf(reqs, key))
    decreases |reqs|
  {
    if reqs == [] {
    } else {
      var q, rest := reqs[0], reqs[1..];
      var next := Served(entries, maxBuckets, own, q);
      ServedFind(entries, maxBuckets, own, q, key);
      RepliesAreOneBucket(next, maxBuckets, own, rest, key);
      hide Served, Admits, After, Find, EvictsKey, Decisions, UniqueKeys;
      var replies := BoundedTrace(next, maxBuckets, own, rest);
      assert BoundedTrace(entries, maxBuckets, own, reqs)[1..] == replies;
      if q.key == key {
        var times := [q.now] + TimesOf(rest, key);
        assert times[1..] == TimesOf(rest, key);
        DecisionsStep(Find(entries, key), own(key), times);
      } else {
        assert [] + RepliesTo(replies, rest, key) == RepliesTo(replies, rest, key);
        assert [] + TimesOf(rest, key) == TimesOf(rest, key);
      }
    }
  }

  lemma {:induction false} AdmittedOfHead(x: bool, rest: seq<bool>)
    ensures Admitted([x] + rest) == (if x then 1 else 0) + Admitted(rest)
    decreases |rest|
  {
    var all, n := [x] + rest, |rest|;
    if n == 0 {
      assert all[..0] == [];
    } else {
      assert all[..n] == [x] + rest[..n - 1] && all[n] == rest[n - 1];
      AdmittedOfHead(x, rest[..n - 1]);
    }
  }

  lemma ShareIsPaidFor(b: Option<Bucket>, limit: ValidLimit, start: real, now: real, later: real)
    requires Sound(b, start) && start <= now <= later
    ensures var c := After(b, limit, now);
            && Sound(c, later)
            && (if Admits(b, limit, now) then 1.0 else 0.0) + Level(c, limit, later)
               <= Level(b, limit, start) + Gain(limit, later - start)
            && (if Admits(b, limit, now) then 1.0 else 0.0) <= Level(b, limit, start) + Gain(limit, now - start)
  {
    var c := After(b, limit, now);
    CheckIsPaidFor(b, limit, start, now);
    LevelComposes(c, limit, now, later);
    GainFacts(limit, start, now, later);
  }

  lemma UntouchedIsPaidFor(b: Option<Bucket>, limit: ValidLimit, start: real, later: real)
    requires Sound(b, start) && start <= later
    ensures Sound(b, later) && Level(b, limit, later) <= Level(b, limit, start) + Gain(limit, later - start)
    ensures Level(None, limit, later) <= Level(b, limit, start) + Gain(limit, later - start) + limit.capacity as real
    ensures 0.0 <= Level(b, limit, start) && Gain(limit, later - start) >= 0.0
  {
    LevelComposes(b, limit, start, later);
    LevelComposes(b, limit, start, start);
    GainFacts(limit, start, start, later);
  }

  /** One request: what it admits to a subject and leaves there is covered by the level before, refill and an eviction. */
  lemma RequestIsPaidFor<K(!new)>(
    entries: Table<K>, maxBuckets: nat, own: K -> ValidLimit, q: Request<K>, key: K, start: real)
    requires UniqueKeys(entries) && Sound(Find(entries, key), start) && start <= q.now <= q.later
    ensures var next, limit := Served(entries, maxBuckets, own, q), own(key);
            var admitted := if q.key == key && Admits(Find(entries, key), limit, q.now) then 1.0 else 0.0;
            && UniqueKeys(next) && Sound(Find(next, key), q.later)
            && admitted <= Level(Find(entries, key), limit, start) + Gain(limit, q.now - start)
            && admitted + Level(Find(next, key), limit, q.later)
               <= Level(Find(entries, key), limit, start) + Gain(limit, q.later - start)
                  + if EvictsKey(entries, maxBuckets, own, q, key) then limit.capacity as real else 0.0
  {
    var limit, b := own(key), Find(entries, key);
    ServedFind(entries, maxBuckets, own, q, key);
    assert Sound(None, q.later);
    hide Served, Find, EvictsKey, UniqueKeys, Level, Gain, Admits, After, Sound;
    if key == q.key {
      ShareIsPaidFor(b, limit, start, q.now, q.later);
    } else {
      UntouchedIsPaidFor(b, limit, start, q.now);
      UntouchedIsPaidFor(b, limit, start, q.later);
    }
  }

  /** What so many full buckets hold. */
  function FullBuckets(n: nat, limit: ValidLimit): real {
    (n * limit.capacity) as real
  }

  lemma FullBucketsOfSum(a: nat, b: nat, limit: ValidLimit)
    ensures FullBuckets(a + b, limit) == FullBuckets(a, limit) + FullBuckets(b, limit)
    ensures FullBuckets(0, limit) == 0.0 && FullBuckets(1, limit) == limit.capacity as real
  {
  }

  lemma RepliesHead<K(!new)>(
    entries: Table<K>, maxBuckets: nat, own: K -> ValidLimit, reqs: seq<Request<K>>, key: K)
    requires reqs != []
    ensures var q, rest := reqs[0], reqs[1..];
            Admitted(RepliesTo(BoundedTrace(entries, maxBuckets, own, reqs), reqs, key)) as real
            == (if q.key == key && Admits(Find(entries, key), own(key), q.now) then 1.0 else 0.0)
               + Admitted(RepliesTo(BoundedTrace(Served(entries, maxBuckets, own, q), maxBuckets, own, rest), rest, key)) as real
  {
    hide Served, Admits, Find, Admitted;
    var q, rest := reqs[0], reqs[1..];
    var replies := BoundedTrace(Served(entries, maxBuckets, own, q), maxBuckets, own, rest);
    assert BoundedTrace(entries, maxBuckets, own, reqs)[1..] == replies;
    AdmittedOfHead(Admits(Find(entries, key), own(key), q.now), RepliesTo(replies, rest, key));
    assert [] + RepliesTo(replies, rest, key) == RepliesTo(replies, rest, key);
  }

  lemma EvictionsHead<K(!new)>(
    entries: Table<K>, maxBuckets: nat, own: K -> ValidLimit, reqs: seq<Request<K>>, key: K, start: real)
    requires reqs != [] && RequestsFrom(start, reqs)
    ensures start <= reqs[0].now <= reqs[0].later && RequestsFrom(reqs[0].later, reqs[1..]) && own(key).capacity > 0
    ensures FullBuckets(Evictions(entries, maxBuckets, own, reqs, key), own(key))
            == (if EvictsKey(entries, maxBuckets, own, reqs[0], key) then own(key).capacity as real else 0.0)
               + FullBuckets(Evictions(Served(entries, maxBuckets, own, reqs[0]), maxBuckets, own, reqs[1..], key), own(key))
  {
    hide Served, EvictsKey, FullBuckets;
    var more := Evictions(Served(entries, maxBuckets, own, reqs[0]), maxBuckets, own, reqs[1..], key);
    FullBucketsOfSum(if EvictsKey(entries, maxBuckets, own, reqs[0], key) then 1 else 0, more, own(key));
  }

  lemma NoReplies<K(!new)>(entries: Table<K>, maxBuckets: nat, own: K -> ValidLimit, key: K)
    ensures Admitted(RepliesTo(BoundedTrace(entries, maxBuckets, own, []), [], key)) == 0
    ensures FullBuckets(Evictions(entries, maxBuckets, own, [], key), own(key)) == 0.0
  {
  }

  /** One subject's admissions in a run: its level, the refill, and a full bucket for every time it is driven out. */
  lemma {:induction false} SubjectIsPaidFor<K(!new)>(
    entries: Table<K>, maxBuckets: nat, own: K -> ValidLimit, reqs: seq<Request<K>>, key: K, start: real)
    requires UniqueKeys(entries) && Sound(Find(entries, key), start) && reqs != [] && RequestsFrom(start, reqs)
    ensures Admitted(RepliesTo(BoundedTrace(entries, maxBuckets, own, reqs), reqs, key)) as real
            <= Level(Find(entries, key), own(key), start) + Gain(own(key), reqs[|reqs| - 1].now - start)
               + FullBuckets(Evictions(entries, maxBuckets, own, reqs, key), own(key))
    decreases |reqs|
  {
    hide *;
    var q, rest, limit := reqs[0], reqs[1..], own(key);
    var next := Served(entries, maxBuckets, own, q);
    EvictionsHead(entries, maxBuckets, own, reqs, key, start);
    RequestIsPaidFor(entries, maxBuckets, own, q, key, start);
    RepliesHead(entries, maxBuckets, own, reqs, key);
    if rest == [] {
      NoReplies(next, maxBuckets, own, key);
    } else {
      SubjectIsPaidFor(next, maxBuckets, own, rest, key, q.later);
      GainAdds(limit, start, q.later, rest[|rest| - 1].now);
    }
  }

  lemma BoundedHead<K(!new)>(entries: Table<K>, maxBuckets: nat, own: K -> ValidLimit, reqs: seq<Request<K>>)
    requires reqs != []
    ensures BoundedTrace(entries, maxBuckets, own, reqs)
            == [Admits(Find(entries, reqs[0].key), own(reqs[0].key), reqs[0].now)]
               + BoundedTrace(Served(entries, maxBuckets, own, reqs[0]), maxBuckets, own, reqs[1..])
  {
  }

  lemma {:induction false} TracePrefix<K(!new)>(
    entries: Table<K>, maxBuckets: nat, own: K -> ValidLimit, reqs: seq<Request<K>>, j: nat)
    requires j <= |reqs|
    ensures BoundedTrace(entries, maxBuckets, own, reqs)[..j] == BoundedTrace(entries, maxBuckets, own, reqs[..j])
    decreases j
  {
    if j > 0 {
      BoundedHead(entries, maxBuckets, own, reqs);
      BoundedHead(entries, maxBuckets, own, reqs[..j]);
      hide Served, Admits, Find, BoundedTrace;
      assert reqs[..j][1..] == reqs[1..][..j - 1];
      TracePrefix(Served(entries, maxBuckets, own, reqs[0]), maxBuckets, own, reqs[1..], j - 1);
    }
  }

  lemma {:induction false} TraceSuffix<K(!new)>(
    entries: Table<K>, maxBuckets: nat, own: K -> ValidLimit, reqs: seq<Request<K>>, i: nat)
    requires i <= |reqs|
    ensures BoundedTrace(entries, maxBuckets, own, reqs)[i..]
            == BoundedTrace(TableAfter(entries, maxBuckets, own, reqs[..i]), maxBuckets, own, reqs[i..])
    decreases i
  {
    if i == 0 {
      assert reqs[..0] == [] && reqs[0..] == reqs;
    } else {
      BoundedHead(entries, maxBuckets, own, reqs);
      assert reqs[..i][1..] == reqs[1..][..i - 1];
      hide Served, Admits, Find, BoundedTrace;
      TraceSuffix(Served(entries, maxBuckets, own, reqs[0]), maxBuckets, own, reqs[1..], i - 1);
    }
  }

  lemma {:induction false} PrefixFrom<K>(start: real, reqs: seq<Request<K>>, j: nat)
    requires RequestsFrom(start, reqs) && j <= |reqs|
    ensures RequestsFrom(start, reqs[..j])
    decreases j
  {
    if j > 0 {
      PrefixFrom(reqs[0].later, reqs[1..], j - 1);
      assert reqs[..j][1..] == reqs[1..][..j - 1];
    }
  }

  /** The state a window of a run starts from. */
  lemma {:induction false} WindowStart<K(!new)>(
    entries: Table<K>, maxBuckets: nat, own: K -> ValidLimit, reqs: seq<Request<K>>, key: K, start: real, i: nat, j: nat)
    requires UniqueKeys(entries) && Sound(Find(entries, key), start) && RequestsFrom(start, reqs) && i < j <= |reqs|
    ensures var table := TableAfter(entries, maxBuckets, own, reqs[..i]);
            UniqueKeys(table) && Sound(Find(table, key), reqs[i].now) && RequestsFrom(reqs[i].now, reqs[i..j])
    decreases i
  {
    var q, rest := reqs[0], reqs[1..];
    if i == 0 {
      PrefixFrom(start, reqs, j);
      assert reqs[..0] == [] && reqs[0..j] == reqs[..j];
    } else {
      RequestIsPaidFor(entries, maxBuckets, own, q, key, start);
      hide Served, Sound, UniqueKeys, Find;
      WindowStart(Served(entries, maxBuckets, own, q), maxBuckets, own, rest, key, q.later, i - 1, j - 1);
      assert reqs[..i][1..] == rest[..i - 1] && reqs[i..j] == rest[i - 1..j - 1];
    }
  }

  lemma EmptyIsSound<K>(key: K, now: real)
    ensures UniqueKeys<K>([]) && Sound(Find([], key), now)
  {
  }

  /**
   * From the empty map, in any window of any run, whoever else calls: one subject is admitted at most C + d * C / W
   * times over a span of length d, and C times more for every time its bucket is driven out.
   */
  lemma SubjectBound<K(!new)>(
    maxBuckets: nat, own: K -> ValidLimit, reqs: seq<Request<K>>, key: K, start: real, i: nat, j: nat)
    requires RequestsFrom(start, reqs) && i < j <= |reqs|
    ensures var table := TableAfter([], maxBuckets, own, reqs[..i]);
            Admitted(RepliesTo(BoundedTrace([], maxBuckets, own, reqs)[i..j], reqs[i..j], key)) as real
            <= own(key).capacity as real + Gain(own(key), reqs[j - 1].now - reqs[i].now)
               + FullBuckets(Evictions(table, maxBuckets, own, reqs[i..j], key), own(key))
  {
    hide Served, Admits, Find, BoundedTrace, TableAfter, Level, Gain, RepliesTo, Admitted, Evictions, FullBuckets, RequestsFrom;
    var table, window, trace := TableAfter([], maxBuckets, own, reqs[..i]), reqs[i..j], BoundedTrace([], maxBuckets, own, reqs);
    TraceSuffix([], maxBuckets, own, reqs, i);
    TracePrefix(table, maxBuckets, own, reqs[i..], j - i);
    assert reqs[i..][..j - i] == window && trace[i..][..j - i] == trace[i..j];
    assert window[|window| - 1] == reqs[j - 1];
    EmptyIsSound(key, start);
    WindowStart([], maxBuckets, own, reqs, key, start, i, j);
    SubjectIsPaidFor(table, maxBuckets, own, reqs[i..j], key, reqs[i].now);
    LevelIsCapped(Find(table, key), own(key), reqs[i].now);
  }

  // ---------------------------------------------------------------------------
  // Against an unbounded map
  // ---------------------------------------------------------------------------

  function Lookup<K(==)>(m: map<K, Bucket>, key: K): Option<Bucket> {
    if key in m then Some(m[key]) else None
  }

  function Grown<K(==)>(m: map<K, Bucket>, own: K -> ValidLimit, q: Request<K>): map<K, Bucket> {
    var b := Lookup(m, q.key);
    if Admits(b, own(q.key), q.now) then m[q.key := Bucket(Level(b, own(q.key), q.now) - 1.0, q.now)] else m
  }

  function UnboundedTrace<K(==)>(m: map<K, Bucket>, own: K -> ValidLimit, reqs: seq<Request<K>>): (r: seq<bool>)
    ensures |r| == |reqs|
    decreases |reqs|
  {
    if reqs == [] then []
    else
      var q := reqs[0];
      [Admits(Lookup(m, q.key), own(q.key), q.now)] + UnboundedTrace(Grown(m, own, q), own, reqs[1..])
  }

  /** The victim of this request, if any, is full under the limit of its own subject. */
  predicate EvictsIdle<K(==)>(entries: Table<K>, maxBuckets: nat, own: K -> ValidLimit, q: Request<K>) {
    Evicts(entries, maxBuckets, own, q) ==>
      var e := VictimOf(entries, own, q);
      Idle(e.1, own(e.0), q.later)
  }

  predicate VictimsAreIdle<K(==)>(entries: Table<K>, maxBuckets: nat, own: K -> ValidLimit, reqs: seq<Request<K>>)
    decreases |reqs|
  {
    reqs == [] ||
    (&& EvictsIdle(entries, maxBuckets, own, reqs[0])
     && VictimsAreIdle(Served(entries, maxBuckets, own, reqs[0]), maxBuckets, own, reqs[1..]))
  }

  /** Two buckets that no later check can tell apart. */
  ghost predicate Alike(b: Option<Bucket>, c: Option<Bucket>, limit: ValidLimit, now: real) {
    Sound(b, now) && Sound(c, now) && Level(b, limit, now) == Level(c, limit, now)
  }

  ghost predicate SameLevels<K(!new)>(entries: Table<K>, m: map<K, Bucket>, own: K -> ValidLimit, now: real) {
    forall k: K :: Alike(Find(entries, k), Lookup(m, k), own(k), now)
  }

  lemma {:induction false} FindAt<K>(entries: Table<K>, i: nat)
    requires UniqueKeys(entries) && i < |entries|
    ensures Find(entries, entries[i].0) == Some(entries[i].1)
  {
    if i > 0 {
      FindAt(entries[1..], i - 1);
    }
  }

  /** Dropping a bucket keeps the levels exactly when it is idle: then it is full, and an absent bucket is a full one. */
  lemma DroppingKeepsLevelsIff<K(!new)>(entries: Table<K>, m: map<K, Bucket>, own: K -> ValidLimit, now: real, i: nat)
    requires UniqueKeys(entries) && SameLevels(entries, m, own, now) && i < |entries|
    ensures SameLevels(entries[..i] + entries[i + 1..], m, own, now) <==> Idle(entries[i].1, own(entries[i].0), now)
  {
    var less, a := entries[..i] + entries[i + 1..], entries[i].0;
    FindAt(entries, i);
    EvictedFind(entries, i, a);
    assert Alike(Find(entries, a), Lookup(m, a), own(a), now);
    if Idle(entries[i].1, own(a), now) {
      forall k: K ensures Alike(Find(less, k), Lookup(m, k), own(k), now) {
        EvictedFind(entries, i, k);
        assert Alike(Find(entries, k), Lookup(m, k), own(k), now);
      }
    } else {
      assert !Alike(Find(less, a), Lookup(m, a), own(a), now);
    }
  }

  lemma AfterStaysAlike(b: Option<Bucket>, c: Option<Bucket>, limit: ValidLimit, t: real, now: real, later: real)
    requires Alike(b, c, limit, t) && t <= now <= later
    ensures Alike(b, c, limit, later) && (Admits(b, limit, now) <==> Admits(c, limit, now))
    ensures Alike(After(b, limit, now), After(c, limit, now), limit, later)
  {
    LevelComposes(b, limit, t, now);
    LevelComposes(c, limit, t, now);
    LevelComposes(b, limit, t, later);
    LevelComposes(c, limit, t, later);
    AfterIsSound(b, limit, now);
    AfterIsSound(c, limit, now);
    LevelComposes(After(b, limit, now), limit, now, later);
    LevelComposes(After(c, limit, now), limit, now, later);
  }

  /** An absent bucket is a full one, and so is an idle one. */
  lemma IdleIsAbsent(b: Bucket, c: Option<Bucket>, limit: ValidLimit, now: real)
    requires Alike(Some(b), c, limit, now)
    ensures Alike(None, c, limit, now) <==> Idle(b, limit, now)
  {
  }

  lemma SubjectKeepsLevelIff<K(!new)>(
    entries: Table<K>, maxBuckets: nat, m: map<K, Bucket>, own: K -> ValidLimit, q: Request<K>, start: real, k: K)
    requires UniqueKeys(entries) && SameLevels(entries, m, own, start) && start <= q.now <= q.later
    ensures Alike(Find(Served(entries, maxBuckets, own, q), k), Lookup(Grown(m, own, q), k), own(k), q.later)
            <==> (k != q.key && EvictsKey(entries, maxBuckets, own, q, k) ==> EvictsIdle(entries, maxBuckets, own, q))
  {
    assert Alike(Find(entries, k), Lookup(m, k), own(k), start);
    AfterStaysAlike(Find(entries, k), Lookup(m, k), own(k), start, q.now, q.later);
    ServedFind(entries, maxBuckets, own, q, k);
    hide Served, UniqueKeys, SameLevels;
    assert Lookup(Grown(m, own, q), k) == if k == q.key then After(Lookup(m, k), own(k), q.now) else Lookup(m, k);
    hide Level, Grown, Lookup, After, Sound;
    if k != q.key && EvictsKey(entries, maxBuckets, own, q, k) {
      var i := Victim(entries, own(q.key), q.later);
      FindAt(entries, i);
      IdleIsAbsent(entries[i].1, Lookup(m, k), own(k), q.later);
    }
  }

  /** One request keeps the levels of all subjects exactly when its victim, if any, is idle under its own limit. */
  lemma ServedKeepsLevelsIff<K(!new)>(
    entries: Table<K>, maxBuckets: nat, m: map<K, Bucket>, own: K -> ValidLimit, q: Request<K>, start: real)
    requires UniqueKeys(entries) && SameLevels(entries, m, own, start) && start <= q.now <= q.later
    ensures SameLevels(Served(entries, maxBuckets, own, q), Grown(m, own, q), own, q.later)
            <==> EvictsIdle(entries, maxBuckets, own, q)
  {
    var next, grown := Served(entries, maxBuckets, own, q), Grown(m, own, q);
    forall k: K
      ensures Alike(Find(next, k), Lookup(grown, k), own(k), q.later)
              <==> (k != q.key && EvictsKey(entries, maxBuckets, own, q, k) ==> EvictsIdle(entries, maxBuckets, own, q))
    {
      SubjectKeepsLevelIff(entries, maxBuckets, m, own, q, start, k);
    }
    if Evicts(entries, maxBuckets, own, q) {
      FindFacts(entries, q.key);
      hide Served, Grown, Find, Lookup, Alike, Idle, UniqueKeys, MustEvict, Admits;
      var i := Victim(entries, own(q.key), q.later);
      assert entries[i].0 != q.key && EvictsKey(entries, maxBuckets, own, q, entries[i].0);
      assert SameLevels(next, grown, own, q.later)
          ==> Alike(Find(next, entries[i].0), Lookup(grown, entries[i].0), own(entries[i].0), q.later);
    }
  }

  /** As long as every victim is idle under its own limit, the capped limiter decides exactly as an unbounded one. */
  lemma {:induction false} BoundedRefinesUnbounded<K(!new)>(
    entries: Table<K>, maxBuckets: nat, m: map<K, Bucket>, own: K -> ValidLimit, reqs: seq<Request<K>>, start: real)
    requires UniqueKeys(entries) && SameLevels(entries, m, own, start) && RequestsFrom(start, reqs)
    requires VictimsAreIdle(entries, maxBuckets, own, reqs)
    ensures BoundedTrace(entries, maxBuckets, own, reqs) == UnboundedTrace(m, own, reqs)
    decreases |reqs|
  {
    if reqs != [] {
      var q, k := reqs[0], reqs[0].key;
      assert Alike(Find(entries, k), Lookup(m, k), own(k), start);
      AfterStaysAlike(Find(entries, k), Lookup(m, k), own(k), start, q.now, q.later);
      ServedFind(entries, maxBuckets, own, q, k);
      ServedKeepsLevelsIff(entries, maxBuckets, m, own, q, start);
      hide Served, Grown, Find, Lookup, Admits, Alike, SameLevels, UniqueKeys, EvictsIdle, After;
      BoundedRefinesUnbounded(Served(entries, maxBuckets, own, q), maxBuckets, Grown(m, own, q), own, reqs[1..], q.later);
    }
  }

  /** From empty maps, the capped limiter and the unbounded one give the same accept/reject trace. */
  lemma LimiterRefinesUnbounded<K(!new)>(maxBuckets: nat, own: K -> ValidLimit, reqs: seq<Request<K>>, start: real)
    requires RequestsFrom(start, reqs) && VictimsAreIdle([], maxBuckets, own, reqs)
    ensures BoundedTrace([], maxBuckets, own, reqs) == UnboundedTrace(map[], own, reqs)
  {
    BoundedRefinesUnbounded([], maxBuckets, map[], own, reqs, start);
  }

  // ---------------------------------------------------------------------------
  // Whose limit says that a bucket is idle
  // ---------------------------------------------------------------------------

  /** Every bucket this owner can have stored and this caller's limit calls idle is full under the owner's limit. */
  ghost predicate JudgedRight(caller: ValidLimit, owner: ValidLimit) {
    forall b: Bucket, now: real ::
      0.0 <= b.tokens <= owner.capacity as real - 1.0 && b.updated <= now && Idle(b, caller, now) ==> Idle(b, owner, now)
  }

  lemma ShortSpanGain(limit: ValidLimit, span: real)
    requires 0.0 < span < limit.window
    ensures Gain(limit, span) < limit.capacity as real
  {
    GainFacts(limit, 0.0, span, limit.window);
    var rest := limit.window - span;
    assert Gain(limit, rest) > 0.0 by {
      RatePositive(limit);
      PositiveProduct(rest, limit.Rate());
    }
    assert span - 0.0 == span && limit.window - 0.0 == limit.window;
  }

  lemma PositiveProduct(x: real, y: real)
    requires x > 0.0 && y > 0.0
    ensures x * y > 0.0
  {
  }

  lemma GainIsShare(limit: ValidLimit, span: real)
    ensures Gain(limit, span) == limit.capacity as real * (span / limit.window)
  {
  }

  lemma SharesShrink(span: real, short: real, long: real)
    requires 0.0 < short <= long && span >= 0.0
    ensures span / long <= span / short && (span >= short ==> span / short >= 1.0)
  {
    var a, b := span / long, span / short;
    assert a * long == span == b * short && b >= 0.0;
    assert b * long >= b * short;
    SignOfFactor(b - a, long);
    assert (b - 1.0) * short == span - short;
    if span >= short {
      SignOfFactor(b - 1.0, short);
    }
  }

  lemma SignOfFactor(x: real, y: real)
    requires x * y >= 0.0 && y > 0.0
    ensures x >= 0.0
  {
  }

  lemma MissingShare(c: real, d: real, x: real, y: real)
    requires 0.0 < d <= c && x <= y <= 1.0
    ensures c - c * x >= d - d * y
  {
    assert c - c * x == c * (1.0 - x) && d - d * y == d * (1.0 - y);
    assert c * (1.0 - x) >= c * (1.0 - y) >= d * (1.0 - y);
  }

  /**
   * One caller's verdicts are right about another's buckets exactly when neither its capacity nor its window is the
   * smaller one.
   */
  lemma JudgedRightIff(caller: ValidLimit, owner: ValidLimit)
    ensures JudgedRight(caller, owner) <==> caller.capacity >= owner.capacity && caller.window >= owner.window
  {
    if caller.capacity < owner.capacity {
      var b := Bucket(caller.capacity as real, 0.0);
      GainFacts(caller, 0.0, 0.0, 0.0);
      GainFacts(owner, 0.0, 0.0, 0.0);
      assert Idle(b, caller, 0.0) && !Idle(b, owner, 0.0);
    } else if caller.window < owner.window {
      var b := Bucket(0.0, 0.0);
      GainFacts(caller, 0.0, 0.0, 0.0);
      ShortSpanGain(owner, caller.window);
      assert caller.window - 0.0 == caller.window;
      assert Idle(b, caller, caller.window) && !Idle(b, owner, caller.window);
    } else {
      forall b: Bucket, now: real
        | 0.0 <= b.tokens <= owner.capacity as real - 1.0 && b.updated <= now && Idle(b, caller, now)
        ensures Idle(b, owner, now)
      {
        WiderVerdict(b, caller, owner, now);
      }
    }
  }

  lemma WiderVerdict(b: Bucket, caller: ValidLimit, owner: ValidLimit, now: real)
    requires caller.capacity >= owner.capacity && caller.window >= owner.window
    requires b.tokens >= 0.0 && b.updated <= now && Idle(b, caller, now)
    ensures Idle(b, owner, now)
  {
    var span := now - b.updated;
    var x, y := span / caller.window, span / owner.window;
    SharesShrink(span, owner.window, caller.window);
    GainIsShare(caller, span);
    GainIsShare(owner, span);
    hide Gain;
    var c, d := caller.capacity as real, owner.capacity as real;
    if y <= 1.0 {
      MissingShare(c, d, x, y);
    } else {
      assert d * y >= d;
    }
  }

  /** So all verdicts of all callers are right exactly when the map serves one limit. */
  lemma OneLimitIff<K(!new)>(own: K -> ValidLimit)
    ensures (forall a: K, b: K :: JudgedRight(own(a), own(b))) <==> (forall a: K, b: K :: own(a) == own(b))
  {
    forall a: K, b: K
      ensures JudgedRight(own(a), own(b)) <==> own(a).capacity >= own(b).capacity && own(a).window >= own(b).window
    {
      JudgedRightIff(own(a), own(b));
    }
    hide JudgedRight;
    if forall a: K, b: K :: JudgedRight(own(a), own(b)) {
      forall a: K, b: K ensures own(a) == own(b) {
        assert JudgedRight(own(a), own(b)) && JudgedRight(own(b), own(a));
      }
    }
  }

  // ---------------------------------------------------------------------------
  // A busy victim is admitted once too often
  // ---------------------------------------------------------------------------

  /** The same subject, again and again at one time. */
  function Repeated<K>(key: K, now: real, n: nat): (r: seq<Request<K>>)
    ensures |r| == n
  {
    if n == 0 then [] else [Request(key, now, now)] + Repeated(key, now, n - 1)
  }

  /** A subject is admitted as often as its level allows, however the others fare. */
  lemma {:induction false} BoundedAdmitsLast<K(!new)>(
    entries: Table<K>, maxBuckets: nat, own: K -> ValidLimit, key: K, now: real, n: nat)
    requires UniqueKeys(entries) && Sound(Find(entries, key), now) && n > 0
    requires n as real <= Level(Find(entries, key), own(key), now)
    ensures BoundedTrace(entries, maxBuckets, own, Repeated(key, now, n))[n - 1]
    decreases n
  {
    var q := Request(key, now, now);
    assert Repeated(key, now, n)[0] == q && Repeated(key, now, n)[1..] == Repeated(key, now, n - 1);
    assert Admits(Find(entries, key), own(key), now);
    if n > 1 {
      ServedFind(entries, maxBuckets, own, q, key);
      AfterIsSound(Find(entries, key), own(key), now);
      hide Served, Level, Admits, UniqueKeys, Find, Sound, After;
      BoundedAdmitsLast(Served(entries, maxBuckets, own, q), maxBuckets, own, key, now, n - 1);
    }
  }

  lemma {:induction false} UnboundedRefusesLast<K(!new)>(
    m: map<K, Bucket>, own: K -> ValidLimit, key: K, now: real, n: nat)
    requires n > 0 && Sound(Lookup(m, key), now) && Level(Lookup(m, key), own(key), now) < n as real
    ensures !UnboundedTrace(m, own, Repeated(key, now, n))[n - 1]
    decreases n
  {
    var q := Request(key, now, now);
    assert Repeated(key, now, n)[0] == q && Repeated(key, now, n)[1..] == Repeated(key, now, n - 1);
    if n > 1 {
      AfterIsSound(Lookup(m, key), own(key), now);
      assert Lookup(Grown(m, own, q), key) == After(Lookup(m, key), own(key), now);
      assert !Admits(Lookup(m, key), own(key), now) ==> Level(Lookup(m, key), own(key), now) < 1.0;
      hide Grown, Level, Admits, Lookup, Sound, After;
      UnboundedRefusesLast(Grown(m, own, q), own, key, now, n - 1);
    }
  }

  /** A new subject, then the subject it drives out, until the old bucket of that one is used up. */
  function Crowding<K(==)>(entries: Table<K>, own: K -> ValidLimit, b: K, now: real): seq<Request<K>>
    requires entries != []
  {
    var e := VictimOf(entries, own, Request(b, now, now));
    var level := Level(Some(e.1), own(e.0), now);
    [Request(b, now, now)] + Repeated(e.0, now, if level >= 0.0 then level.Floor + 1 else 0)
  }

  /** The victim of a busy eviction: its level is known, and its bucket is gone afterwards. */
  lemma BusyVictim<K(!new)>(
    entries: Table<K>, maxBuckets: nat, m: map<K, Bucket>, own: K -> ValidLimit, q: Request<K>)
    requires UniqueKeys(entries) && SameLevels(entries, m, own, q.now) && q.now == q.later
    requires !EvictsIdle(entries, maxBuckets, own, q)
    ensures Admits(Find(entries, q.key), own(q.key), q.now) && Admits(Lookup(m, q.key), own(q.key), q.now) && entries != []
    ensures var (a, bucket) := VictimOf(entries, own, q);
            && a != q.key && Find(Served(entries, maxBuckets, own, q), a) == None
            && Sound(Lookup(m, a), q.now) && Level(Lookup(m, a), own(a), q.now) == Level(Some(bucket), own(a), q.now)
            && 0.0 <= Level(Some(bucket), own(a), q.now) < own(a).capacity as real
  {
    var i := Victim(entries, own(q.key), q.later);
    var (a, bucket) := entries[i];
    assert Evicts(entries, maxBuckets, own, q) && !Idle(bucket, own(a), q.later);
    FindAt(entries, i);
    FindFacts(entries, q.key);
    assert Alike(Find(entries, a), Lookup(m, a), own(a), q.now);
    assert Alike(Find(entries, q.key), Lookup(m, q.key), own(q.key), q.now);
    LevelComposes(Some(bucket), own(a), q.now, q.now);
    ServedFind(entries, maxBuckets, own, q, a);
  }

  /** After a check admitted on both sides, the traces go on as those of the rest. */
  lemma TracesGoOn<K(!new)>(
    entries: Table<K>, maxBuckets: nat, m: map<K, Bucket>, own: K -> ValidLimit, q: Request<K>, rest: seq<Request<K>>)
    ensures BoundedTrace(entries, maxBuckets, own, [q] + rest)
            == [Admits(Find(entries, q.key), own(q.key), q.now)]
               + BoundedTrace(Served(entries, maxBuckets, own, q), maxBuckets, own, rest)
    ensures UnboundedTrace(m, own, [q] + rest)
            == [Admits(Lookup(m, q.key), own(q.key), q.now)] + UnboundedTrace(Grown(m, own, q), own, rest)
  {
    hide Served, Grown, Admits, Find, Lookup;
    assert ([q] + rest)[1..] == rest;
  }

  /** The last request is admitted under the cap and refused without it. */
  predicate GrantsExtra<K(==)>(
    entries: Table<K>, maxBuckets: nat, m: map<K, Bucket>, own: K -> ValidLimit, reqs: seq<Request<K>>) {
    && reqs != []
    && BoundedTrace(entries, maxBuckets, own, reqs)[|reqs| - 1]
    && !UnboundedTrace(m, own, reqs)[|reqs| - 1]
  }

  /**
   * From any map and for any new subject that drives out a busy bucket: the subject driven out comes back with a
   * full one and is admitted once too often.
   */
  lemma BusyEvictionGrantsExtra<K(!new)>(
    entries: Table<K>, maxBuckets: nat, m: map<K, Bucket>, own: K -> ValidLimit, b: K, now: real)
    requires UniqueKeys(entries) && SameLevels(entries, m, own, now)
    requires !EvictsIdle(entries, maxBuckets, own, Request(b, now, now))
    ensures entries != [] && GrantsExtra(entries, maxBuckets, m, own, Crowding(entries, own, b, now))
  {
    var q := Request(b, now, now);
    BusyVictim(entries, maxBuckets, m, own, q);
    ServedFind(entries, maxBuckets, own, q, b);
    var (a, bucket) := VictimOf(entries, own, q);
    var level := Level(Some(bucket), own(a), now);
    var n := level.Floor + 1;
    var next, grown := Served(entries, maxBuckets, own, q), Grown(m, own, q);
    assert Lookup(grown, a) == Lookup(m, a);
    assert Level(None, own(a), now) == own(a).capacity as real && n <= own(a).capacity;
    assert Sound(None, now);
    hide Served, Grown, Find, Lookup, Admits, UniqueKeys, SameLevels, EvictsIdle, Sound, Level, VictimOf, Victim;
    BoundedAdmitsLast(next, maxBuckets, own, a, now, n);
    UnboundedRefusesLast(grown, own, a, now, n);
    TracesGoOn(entries, maxBuckets, m, own, q, Repeated(a, now, n));
    assert Crowding(entries, own, b, now) == [q] + Repeated(a, now, n);
  }

  /** Subjects 0, 1, ..., i - 1, each admitted once, just now. */
  function Flooded(own: nat -> ValidLimit, i: nat): Table<nat> {
    seq(i, k requires 0 <= k => (k, Bucket(own(k).capacity as real - 1.0, 0.0)))
  }

  ghost predicate FloodedTo(entries: Table<nat>, m: map<nat, Bucket>, own: nat -> ValidLimit, i: nat) {
    entries == Flooded(own, i) && UniqueKeys(entries) && SameLevels(entries, m, own, 0.0)
  }

  /** Subjects i, i + 1, ... up to the cap, once each; the one at the cap crowds out another, which then comes back. */
  function Flood(own: nat -> ValidLimit, i: nat, maxBuckets: nat): seq<Request<nat>>
    requires i <= maxBuckets && maxBuckets > 0
    decreases maxBuckets - i
  {
    if i < maxBuckets then [Request(i, 0.0, 0.0)] + Flood(own, i + 1, maxBuckets)
    else Crowding(Flooded(own, maxBuckets), own, maxBuckets, 0.0)
  }

  lemma {:induction false} PutAppends<K>(entries: Table<K>, key: K, b: Bucket)
    requires Find(entries, key).None?
    ensures Put(entries, key, b) == entries + [(key, b)]
  {
    if entries != [] {
      PutAppends(entries[1..], key, b);
    }
  }

  /** One more new subject of a flood, below the cap. */
  lemma FloodStep(entries: Table<nat>, m: map<nat, Bucket>, maxBuckets: nat, own: nat -> ValidLimit, i: nat)
    requires i < maxBuckets && FloodedTo(entries, m, own, i)
    ensures var q := Request(i, 0.0, 0.0);
            FloodedTo(Served(entries, maxBuckets, own, q), Grown(m, own, q), own, i + 1)
  {
    var q := Request(i, 0.0, 0.0);
    FindFacts(entries, i);
    ServedKeepsLevelsIff(entries, maxBuckets, m, own, q, 0.0);
    ServedFind(entries, maxBuckets, own, q, i);
    PutAppends(entries, i, Bucket(own(i).capacity as real - 1.0, 0.0));
    assert Flooded(own, i + 1) == Flooded(own, i) + [(i, Bucket(own(i).capacity as real - 1.0, 0.0))];
  }

  /** At the cap every bucket has just been used, so that whoever is driven out is busy. */
  lemma FloodedIsBusy(entries: Table<nat>, m: map<nat, Bucket>, maxBuckets: nat, own: nat -> ValidLimit)
    requires maxBuckets > 0 && FloodedTo(entries, m, own, maxBuckets)
    ensures !EvictsIdle(entries, maxBuckets, own, Request(maxBuckets, 0.0, 0.0))
  {
    var q := Request(maxBuckets, 0.0, 0.0);
    FindFacts(entries, maxBuckets);
    var (a, bucket) := VictimOf(entries, own, q);
    GainFacts(own(a), 0.0, 0.0, 0.0);
    assert a < maxBuckets && bucket == Bucket(own(a).capacity as real - 1.0, 0.0);
  }

  lemma ExtraLater<K(!new)>(
    entries: Table<K>, maxBuckets: nat, m: map<K, Bucket>, own: K -> ValidLimit, q: Request<K>, rest: seq<Request<K>>)
    requires GrantsExtra(Served(entries, maxBuckets, own, q), maxBuckets, Grown(m, own, q), own, rest)
    ensures GrantsExtra(entries, maxBuckets, m, own, [q] + rest)
  {
    hide Served, Grown;
    TracesGoOn(entries, maxBuckets, m, own, q, rest);
    hide BoundedTrace, UnboundedTrace, Admits, Find, Lookup;
  }

  lemma {:induction false} FloodFrom(entries: Table<nat>, m: map<nat, Bucket>, maxBuckets: nat, own: nat -> ValidLimit, i: nat)
    requires 0 < maxBuckets && i <= maxBuckets && FloodedTo(entries, m, own, i)
    ensures GrantsExtra(entries, maxBuckets, m, own, Flood(own, i, maxBuckets))
    decreases maxBuckets - i
  {
    if i < maxBuckets {
      var q := Request(i, 0.0, 0.0);
      FloodStep(entries, m, maxBuckets, own, i);
      hide Served, Grown, FloodedTo, GrantsExtra;
      FloodFrom(Served(entries, maxBuckets, own, q), Grown(m, own, q), maxBuckets, own, i + 1);
      ExtraLater(entries, maxBuckets, m, own, q, Flood(own, i + 1, maxBuckets));
    } else {
      FloodedIsBusy(entries, m, maxBuckets, own);
      hide GrantsExtra, EvictsIdle, UniqueKeys, SameLevels, Crowding;
      BusyEvictionGrantsExtra(entries, maxBuckets, m, own, maxBuckets, 0.0);
    }
  }

  lemma TableAfterHead<K(!new)>(
    entries: Table<K>, maxBuckets: nat, own: K -> ValidLimit, q: Request<K>, rest: seq<Request<K>>, n: nat)
    requires 0 < n <= |rest| + 1
    ensures TableAfter(entries, maxBuckets, own, ([q] + rest)[..n])
            == TableAfter(Served(entries, maxBuckets, own, q), maxBuckets, own, rest[..n - 1])
  {
    hide Served;
    assert ([q] + rest)[..n][0] == q && ([q] + rest)[..n][1..] == rest[..n - 1];
  }

  lemma {:induction false} FloodFills(entries: Table<nat>, m: map<nat, Bucket>, maxBuckets: nat, own: nat -> ValidLimit, i: nat)
    requires 0 < maxBuckets && i <= maxBuckets && FloodedTo(entries, m, own, i)
    ensures maxBuckets - i <= |Flood(own, i, maxBuckets)|
    ensures TableAfter(entries, maxBuckets, own, Flood(own, i, maxBuckets)[..maxBuckets - i]) == Flooded(own, maxBuckets)
    decreases maxBuckets - i
  {
    if i < maxBuckets {
      var q, rest := Request(i, 0.0, 0.0), Flood(own, i + 1, maxBuckets);
      FloodStep(entries, m, maxBuckets, own, i);
      assert Flood(own, i, maxBuckets) == [q] + rest;
      hide Served, Grown, FloodedTo, Flooded, Flood, TableAfter;
      FloodFills(Served(entries, maxBuckets, own, q), Grown(m, own, q), maxBuckets, own, i + 1);
      TableAfterHead(entries, maxBuckets, own, q, rest, maxBuckets - i);
    }
  }

  /** From empty maps, for every cap and whatever the limits: a flood of new subjects makes the capped limiter admit more. */
  lemma FloodGrantsExtra(maxBuckets: nat, own: nat -> ValidLimit)
    requires maxBuckets > 0
    ensures GrantsExtra([], maxBuckets, map[], own, Flood(own, 0, maxBuckets))
  {
    assert Flooded(own, 0) == [];
    FloodFrom([], map[], maxBuckets, own, 0);
  }

  /** Two of the limits the application asks for. */
  const ASK: ValidLimit := Limit(60, 60.0)
  const DOCUMENTS: ValidLimit := Limit(10, 60.0)

  /** The flood asks questions; the subject at the cap uploads a document. */
  function AskThenUpload(maxBuckets: nat): nat -> ValidLimit {
    k => if k < maxBuckets then ASK else DOCUMENTS
  }

  lemma JustAsked()
    ensures var b := Bucket(59.0, 0.0);
            Idle(b, DOCUMENTS, 0.0) && !Idle(b, ASK, 0.0)
  {
    hide Gain;
    GainFacts(ASK, 0.0, 0.0, 0.0);
    GainFacts(DOCUMENTS, 0.0, 0.0, 0.0);
  }

  lemma FirstIsIdle<K>(entries: Table<K>, limit: ValidLimit, now: real)
    requires entries != [] && Idle(entries[0].1, limit, now)
    ensures FirstIdle(entries, limit, now) == 0
  {
    hide Idle;
  }

  lemma UploadCallsAskIdle(own: nat -> ValidLimit, maxBuckets: nat)
    requires maxBuckets > 0 && own(0) == ASK
    ensures var full := Flooded(own, maxBuckets);
            FirstIdle(full, DOCUMENTS, 0.0) == 0 && !Idle(full[0].1, ASK, 0.0)
  {
    hide Idle, FirstIdle;
    var full := Flooded(own, maxBuckets);
    assert full[0] == (0, Bucket(59.0, 0.0));
    JustAsked();
    FirstIsIdle(full, DOCUMENTS, 0.0);
  }

  /**
   * With the shipped limits a bucket called idle need not be full: a documents check drops an ask bucket that has
   * been used just before, and that subject is admitted once too often.
   */
  lemma UploadDropsBusyAsk(maxBuckets: nat)
    requires maxBuckets > 0
    ensures var own := AskThenUpload(maxBuckets);
            var full := Flooded(own, maxBuckets);
            && maxBuckets <= |Flood(own, 0, maxBuckets)|
            && TableAfter([], maxBuckets, own, Flood(own, 0, maxBuckets)[..maxBuckets]) == full
            && FirstIdle(full, DOCUMENTS, 0.0) == 0 && !Idle(full[0].1, ASK, 0.0)
            && GrantsExtra([], maxBuckets, map[], own, Flood(own, 0, maxBuckets))
  {
    var own := AskThenUpload(maxBuckets);
    assert own(0) == ASK;
    FloodGrantsExtra(maxBuckets, own);
    assert Flooded(own, 0) == [];
    FloodFills([], map[], maxBuckets, own, 0);
    hide *;
    UploadCallsAskIdle(own, maxBuckets);
  }

  // ---------------------------------------------------------------------------
  // The shared script and its key expiry
  // ---------------------------------------------------------------------------

  const EXPIRE_SECONDS := 120.0

  /** A key is gone once its time to live, restarted by every write, has passed. */
  function Unexpired(b: Option<Bucket>, now: real): Option<Bucket> {
    if b.Some? && now - b.value.updated >= EXPIRE_SECONDS then None else b
  }

  function ScriptTrace(b: Option<Bucket>, limit: ValidLimit, times: seq<real>): seq<bool>
    decreases |times|
  {
    if times == [] then []
    else
      var live := Unexpired(b, times[0]);
      [Admits(live, limit, times[0])] + ScriptTrace(After(live, limit, times[0]), limit, times[1..])
  }

  /** The same script on a store that never expires a key. */
  function KeptTrace(b: Option<Bucket>, limit: ValidLimit, times: seq<real>): seq<bool>
    decreases |times|
  {
    if times == [] then []
    else [Admits(b, limit, times[0])] + KeptTrace(After(b, limit, times[0]), limit, times[1..])
  }

  lemma {:induction false} ExpiryIsInvisibleFrom(
    b: Option<Bucket>, c: Option<Bucket>, limit: ValidLimit, times: seq<real>, start: real)
    requires limit.window <= EXPIRE_SECONDS
    requires Ordered(times) && (times != [] ==> start <= times[0])
    requires Sound(b, start) && Sound(c, start) && Level(b, limit, start) == Level(c, limit, start)
    ensures ScriptTrace(b, limit, times) == KeptTrace(c, limit, times)
    decreases |times|
  {
    if times != [] {
      var now := times[0];
      LevelComposes(b, limit, start, now);
      LevelComposes(c, limit, start, now);
      var live := Unexpired(b, now);
      if live != b {
        var x := b.value.updated;
        GainFacts(limit, x, x + limit.window, now);
        assert (x + limit.window) - x == limit.window;
      }
      AfterIsSound(live, limit, now);
      AfterIsSound(c, limit, now);
      ExpiryIsInvisibleFrom(After(live, limit, now), After(c, limit, now), limit, times[1..], now);
    }
  }

  /** Key expiry never changes a decision exactly when the window is at most the time to live. */
  lemma ExpiryIsInvisibleIff(window: real)
    requires window > 0.0
    ensures (forall capacity: int, times: seq<real> :: capacity > 0 && Ordered(times) ==>
               ScriptTrace(None, Limit(capacity, window), times) == KeptTrace(None, Limit(capacity, window), times))
            <==> window <= EXPIRE_SECONDS
  {
    if window <= EXPIRE_SECONDS {
      forall capacity: int, times: seq<real> | capacity > 0 && Ordered(times)
        ensures ScriptTrace(None, Limit(capacity, window), times) == KeptTrace(None, Limit(capacity, window), times) {
        ExpiryIsInvisibleFrom(None, None, Limit(capacity, window), times, if times == [] then 0.0 else times[0]);
      }
    } else {
      LongWindowShowsExpiry(window);
      assert Ordered([0.0, EXPIRE_SECONDS]);
    }
  }

  /** One token, spent at time zero: gone from the store after the time to live, but not yet refilled. */
  lemma LongWindowShowsExpiry(window: real)
    requires window > EXPIRE_SECONDS
    ensures ScriptTrace(None, Limit(1, window), [0.0, EXPIRE_SECONDS]) != KeptTrace(None, Limit(1, window), [0.0, EXPIRE_SECONDS])
  {
    var limit: ValidLimit := Limit(1, window);
    var times := [0.0, EXPIRE_SECONDS];
    assert times[1..] == [EXPIRE_SECONDS] && [EXPIRE_SECONDS][1..] == [];
    var spent := Some(Bucket(0.0, 0.0));
    assert After(None, limit, 0.0) == spent;
    ShortSpanGain(limit, EXPIRE_SECONDS);
    assert !Admits(spent, limit, EXPIRE_SECONDS);
    assert Admits(Unexpired(spent, EXPIRE_SECONDS), limit, EXPIRE_SECONDS);
    assert ScriptTrace(spent, limit, [EXPIRE_SECONDS])[0] != KeptTrace(spent, limit, [EXPIRE_SECONDS])[0];
    assert ScriptTrace(None, limit, times)[1] != KeptTrace(None, limit, times)[1];
  }
}
