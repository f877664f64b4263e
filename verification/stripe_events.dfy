/** Stripe webhook events: the claim that admits each event once, and what it does to the tenants table. */
module StripeEvents {
  import opened Common

  type TenantId = nat
  type Time = int

  /** A tenants row, as far as billing writes it. */
  datatype Tenant = Tenant(
    tier: string, customer: Option<string>, subscription: Option<string>, status: string, periodEnd: Option<Time>)

  /** A stripe_events row; processed says that processed_at is set. */
  datatype EventRow = EventRow(kind: string, tenant: Option<TenantId>, processed: bool)

  datatype Tables = Tables(tenants: map<TenantId, Tenant>, events: map<string, EventRow>)

  /** The fields the code reads of an event's object. */
  datatype Data = Data(
    id: Option<string>, reference: Option<string>, customer: Option<string>, subscription: Option<string>,
    status: Option<string>, periodEnd: Option<Time>, tenant: Option<string>, tier: Option<string>)

  datatype Event = Event(id: string, kind: string, data: Data)

  datatype Reply = Ignored | AlreadyProcessed | Processed(tenant: Option<TenantId>) | Failed

  /** UUID parsing, the tiers the foreign key allows, and which row a lookup without an order returns. */
  datatype Config = Config(parse: string -> Option<TenantId>, tiers: set<string>, pick: set<TenantId> -> TenantId)

  ghost predicate PicksAMember(c: Config) {
    forall s: set<TenantId> :: s != {} ==> c.pick(s) in s
  }

  // ---------------------------------------------------------------------------
  // Which tenant an event is about
  // ---------------------------------------------------------------------------

  predicate Truthy(s: Option<string>) {
    s.Some? && s.value != ""
  }

  /** The SQL comparison column = value: never true of a null. */
  predicate SqlEqual(column: Option<string>, value: Option<string>) {
    column.Some? && column == value
  }

  function WithCustomer(tenants: map<TenantId, Tenant>, customer: Option<string>): set<TenantId> {
    set t | t in tenants && SqlEqual(tenants[t].customer, customer)
  }

  function WithSubscription(tenants: map<TenantId, Tenant>, subscription: Option<string>): set<TenantId> {
    set t | t in tenants && SqlEqual(tenants[t].subscription, subscription)
  }

  /** The tenant an event names itself, if it names one that parses. */
  function Named(c: Config, d: Data): Option<TenantId> {
    var raw := if Truthy(d.reference) then d.reference else d.tenant;
    if Truthy(raw) then c.parse(raw.value) else None
  }

  /** resolve_tenant_id_from_stripe_data: named, or found by customer, or found by subscription. */
  function Resolved(c: Config, tenants: map<TenantId, Tenant>, d: Data): Option<TenantId> {
    var subscription := if Truthy(d.subscription) then d.subscription else d.id;
    if Named(c, d).Some? then Named(c, d)
    else if Truthy(d.customer) && WithCustomer(tenants, d.customer) != {} then
      Some(c.pick(WithCustomer(tenants, d.customer)))
    else if Truthy(subscription) && WithSubscription(tenants, subscription) != {} then
      Some(c.pick(WithSubscription(tenants, subscription)))
    else None
  }

  // ---------------------------------------------------------------------------
  // The claim
  // ---------------------------------------------------------------------------

  datatype Claim = Claimed(events: map<string, EventRow>) | Taken | Rejected

  /** The upsert: a new row, or an unprocessed one marked; a new row's tenant must exist. */
  function Claiming(s: Tables, id: string, kind: string, tenant: Option<TenantId>): Claim {
    if id in s.events then
      if s.events[id].processed then Taken else Claimed(s.events[id := s.events[id].(processed := true)])
    else if tenant.Some? && tenant.value !in s.tenants then Rejected
    else Claimed(s.events[id := EventRow(kind, tenant, true)])
  }

  // ---------------------------------------------------------------------------
  // What a claimed event does
  // ---------------------------------------------------------------------------

  function Coalesce<T>(value: Option<T>, column: Option<T>): Option<T> {
    if value.Some? then value else column
  }

  function CheckoutTier(d: Data): string {
    if d.tier.Some? && d.tier.value in {"free", "pro", "enterprise"} then d.tier.value else "pro"
  }

  function CheckedOut(row: Tenant, d: Data): Tenant {
    Tenant(CheckoutTier(d), Coalesce(d.customer, row.customer), Coalesce(d.subscription, row.subscription), "active", row.periodEnd)
  }

  function NewStatus(d: Data): string {
    if d.status.Some? then d.status.value else "active"
  }

  /** The tier an update sets, if it sets one. */
  function UpdateTier(d: Data): Option<string> {
    if NewStatus(d) in {"canceled", "unpaid"} then Some("free") else if Truthy(d.tier) then d.tier else None
  }

  function SubscriptionUpdated(row: Tenant, d: Data): Tenant {
    row.(
      status := NewStatus(d),
      periodEnd := if d.periodEnd.Some? && d.periodEnd.value != 0 then d.periodEnd else row.periodEnd,
      tier := if UpdateTier(d).Some? then UpdateTier(d).value else row.tier)
  }

  function SubscriptionDeleted(row: Tenant): Tenant {
    row.(tier := "free", status := "canceled", subscription := None)
  }

  /** An UPDATE of some rows, refused as a whole when a row gets a tier that does not exist. */
  function UpdateRows(c: Config, tenants: map<TenantId, Tenant>, rows: set<TenantId>, f: Tenant -> Tenant)
    : (r: Option<map<TenantId, Tenant>>)
    ensures r.Some? ==> r.value.Keys == tenants.Keys
  {
    if exists t :: t in rows && t in tenants && f(tenants[t]).tier != tenants[t].tier && f(tenants[t]).tier !in c.tiers then None
    else Some(map t | t in tenants :: if t in rows then f(tenants[t]) else tenants[t])
  }

  /** The tenants after the event's own update, or None where the update is refused. */
  function Updated(c: Config, tenants: map<TenantId, Tenant>, e: Event, tenant: Option<TenantId>)
    : (r: Option<map<TenantId, Tenant>>)
    ensures r.Some? ==> r.value.Keys == tenants.Keys
  {
    var d := e.data;
    var subscribed := WithSubscription(tenants, d.id) + WithCustomer(tenants, d.customer);
    if e.kind == "checkout.session.completed" then
      UpdateRows(c, tenants, if tenant.Some? then {tenant.value} else {}, row => CheckedOut(row, d))
    else if e.kind == "customer.subscription.updated" then
      UpdateRows(c, tenants, subscribed, row => SubscriptionUpdated(row, d))
    else if e.kind == "customer.subscription.deleted" then
      UpdateRows(c, tenants, subscribed, SubscriptionDeleted)
    else if e.kind == "invoice.payment_failed" then
      UpdateRows(c, tenants, WithCustomer(tenants, d.customer), (row: Tenant) => row.(status := "past_due"))
    else if e.kind == "invoice.payment_succeeded" then
      UpdateRows(c, tenants, WithCustomer(tenants, d.customer), (row: Tenant) => row.(status := "active"))
    else Some(tenants)
  }

  /** process_stripe_event: the reply, and the tables after it; the claim stays when the update is refused. */
  function Process(c: Config, s: Tables, e: Event): (Reply, Tables) {
    if e.id == "" || e.kind == "" then (Ignored, s)
    else
      var tenant := Resolved(c, s.tenants, e.data);
      match Claiming(s, e.id, e.kind, tenant)
      case Taken => (AlreadyProcessed, s)
      case Rejected => (Failed, s)
      case Claimed(events) =>
        match Updated(c, s.tenants, e, tenant)
        case None => (Failed, Tables(s.tenants, events))
        case Some(tenants) => (Processed(tenant), Tables(tenants, events))
  }

  class BillingDatabase {
    const config: Config
    var tenants: map<TenantId, Tenant>
    var events: map<string, EventRow>

    function Contents(): Tables
      reads this
    {
      Tables(tenants, events)
    }

    constructor (config: Config, tenants: map<TenantId, Tenant>, events: map<string, EventRow>)
      ensures this.config == config && Contents() == Tables(tenants, events)
    {
      this.config, this.tenants, this.events := config, tenants, events;
    }

    /** claim_webhook_event: whether this delivery claimed the event; failed where the insert is refused. */
    method ClaimWebhookEvent(id: string, kind: string, tenant: Option<TenantId>) returns (claimed: bool, failed: bool)
      modifies `events
      ensures claimed == Claiming(old(Contents()), id, kind, tenant).Claimed?
      ensures failed == Claiming(old(Contents()), id, kind, tenant).Rejected?
      ensures events == if claimed then Claiming(old(Contents()), id, kind, tenant).events else old(events)
    {
      if id in events {
        claimed, failed := !events[id].processed, false;
        if claimed {
          events := events[id := events[id].(processed := true)];
        }
      } else if tenant.Some? && tenant.value !in tenants {
        claimed, failed := false, true;
      } else {
        events := events[id := EventRow(kind, tenant, true)];
        claimed, failed := true, false;
      }
    }

    method ProcessStripeEvent(e: Event) returns (reply: Reply)
      modifies this
      ensures (reply, Contents()) == Process(config, old(Contents()), e)
    {
      if e.id == "" || e.kind == "" {
        return Ignored;
      }
      var tenant := Resolved(config, tenants, e.data);
      var claimed, failed := ClaimWebhookEvent(e.id, e.kind, tenant);
      if failed {
        return Failed;
      }
      if !claimed {
        return AlreadyProcessed;
      }
      var updated := Updated(config, tenants, e, tenant);
      if updated.None? {
        return Failed;
      }
      tenants := updated.value;
      return Processed(tenant);
    }
  }

  // ---------------------------------------------------------------------------
  // Traces
  // ---------------------------------------------------------------------------

  /** A delivery; the worker may die between its committed claim and its update. */
  datatype Delivery = Delivery(event: Event, dies: bool)

  function Deliver(c: Config, s: Tables, d: Delivery): Tables {
    var after := Process(c, s, d.event).1;
    if d.dies then Tables(s.tenants, after.events) else after
  }

  function AfterTrace(c: Config, s: Tables, trace: seq<Delivery>): Tables
    decreases |trace|
  {
    if trace == [] then s else AfterTrace(c, Deliver(c, s, trace[0]), trace[1..])
  }

  /** Whether a delivery can claim its event if none did before: a fresh event must not name an unknown tenant. */
  predicate Claimable(c: Config, known: set<TenantId>, open: set<string>, e: Event) {
    && e.id != "" && e.kind != ""
    && (e.id in open || Named(c, e.data).None? || Named(c, e.data).value in known)
  }

  /** The first claimable delivery of each event that is not already done, in order. */
  function Firsts(c: Config, known: set<TenantId>, open: set<string>, done: set<string>, trace: seq<Delivery>): seq<Delivery>
    decreases |trace|
  {
    if trace == [] then []
    else
      var e := trace[0].event;
      if e.id !in done && Claimable(c, known, open, e) then
        [trace[0]] + Firsts(c, known, open, done + {e.id}, trace[1..])
      else Firsts(c, known, open, done, trace[1..])
  }

  function Done(s: Tables): set<string> {
    set id | id in s.events && s.events[id].processed
  }

  /** Events with a row that was never processed. */
  function Open(s: Tables): set<string> {
    set id | id in s.events && !s.events[id].processed
  }

  lemma ResolvedExists(c: Config, tenants: map<TenantId, Tenant>, d: Data)
    requires PicksAMember(c) && Named(c, d).None?
    ensures Resolved(c, tenants, d).Some? ==> Resolved(c, tenants, d).value in tenants
  {
    var subscription := if Truthy(d.subscription) then d.subscription else d.id;
    if WithCustomer(tenants, d.customer) != {} {
      assert c.pick(WithCustomer(tenants, d.customer)) in WithCustomer(tenants, d.customer);
    }
    if WithSubscription(tenants, subscription) != {} {
      assert c.pick(WithSubscription(tenants, subscription)) in WithSubscription(tenants, subscription);
    }
  }

  /** A delivery claims its event exactly when it is claimable and not done; otherwise it changes nothing. */
  lemma ClaimsIff(c: Config, s: Tables, e: Event)
    requires PicksAMember(c)
    ensures var kept := e.id !in Done(s) && Claimable(c, s.tenants.Keys, Open(s), e);
            && (kept <==> e.id != "" && e.kind != ""
                          && Claiming(s, e.id, e.kind, Resolved(c, s.tenants, e.data)).Claimed?)
            && (!kept ==> Process(c, s, e).1 == s)
  {
    if Named(c, e.data).None? {
      ResolvedExists(c, s.tenants, e.data);
    }
  }

  /** Marks of a claimed delivery: its event is done from then on, and open events are no more than before. */
  lemma DeliveredMarks(c: Config, s: Tables, d: Delivery)
    requires PicksAMember(c) && d.event.id !in Done(s) && Claimable(c, s.tenants.Keys, Open(s), d.event)
    ensures var after := Deliver(c, s, d);
            && Done(after) == Done(s) + {d.event.id} && Open(after) == Open(s) - {d.event.id}
            && after.tenants.Keys == s.tenants.Keys
  {
    ClaimsIff(c, s, d.event);
    hide Updated, Resolved;
  }

  /** Dropping open events that are done changes no choice. */
  lemma {:induction false} OpenAmongDone(
    c: Config, known: set<TenantId>, open: set<string>, done: set<string>, id: string, trace: seq<Delivery>)
    requires id in done
    ensures Firsts(c, known, open, done, trace) == Firsts(c, known, open - {id}, done, trace)
    decreases |trace|
  {
    if trace != [] {
      var e := trace[0].event;
      OpenAmongDone(c, known, open, done + {e.id}, id, trace[1..]);
      OpenAmongDone(c, known, open, done, id, trace[1..]);
    }
  }

  /** Any trace with replays leaves all tables as its first claimable deliveries alone do, whatever the replays carry. */
  lemma {:induction false} ReplaysChangeNothing(c: Config, s: Tables, trace: seq<Delivery>)
    requires PicksAMember(c)
    ensures AfterTrace(c, s, trace) == AfterTrace(c, s, Firsts(c, s.tenants.Keys, Open(s), Done(s), trace))
    decreases |trace|
  {
    if trace != [] {
      var d := trace[0];
      var next := Deliver(c, s, d);
      ClaimsIff(c, s, d.event);
      ReplaysChangeNothing(c, next, trace[1..]);
      if d.event.id !in Done(s) && Claimable(c, s.tenants.Keys, Open(s), d.event) {
        DeliveredMarks(c, s, d);
        OpenAmongDone(c, s.tenants.Keys, Open(s), Done(next), d.event.id, trace[1..]);
        FirstThenRest(c, s, d, Firsts(c, s.tenants.Keys, Open(s), Done(next), trace[1..]));
      }
    }
  }

  /** The first delivery of each event id, in order. */
  function FirstOccurrences(seen: set<string>, trace: seq<Delivery>): seq<Delivery>
    decreases |trace|
  {
    if trace == [] then []
    else if trace[0].event.id in seen then FirstOccurrences(seen, trace[1..])
    else [trace[0]] + FirstOccurrences(seen + {trace[0].event.id}, trace[1..])
  }

  /** Deliveries of one id carry one event, as redeliveries of a webhook do. */
  ghost predicate OneEventPerId(trace: seq<Delivery>) {
    forall d, e :: d in trace && e in trace && d.event.id == e.event.id ==> d.event == e.event
  }

  /** From any tables: the first occurrence of each event id, in order, decides alone. */
  lemma FirstOccurrencesDecide(c: Config, s: Tables, trace: seq<Delivery>)
    requires PicksAMember(c) && OneEventPerId(trace)
    ensures AfterTrace(c, s, trace) == AfterTrace(c, s, FirstOccurrences({}, trace))
  {
    ReplaysChangeNothing(c, s, trace);
    ReplaysChangeNothing(c, s, FirstOccurrences({}, trace));
    FirstsAreOccurrences(c, s.tenants.Keys, Open(s), Done(s), {}, trace);
  }

  /** Later occurrences are not claimed: the event was claimed before, or none of its deliveries can be. */
  lemma {:induction false} FirstsAreOccurrences(
    c: Config, known: set<TenantId>, open: set<string>, done: set<string>, seen: set<string>, trace: seq<Delivery>)
    requires OneEventPerId(trace)
    requires forall d :: d in trace && d.event.id in seen ==> (d.event.id in done || !Claimable(c, known, open, d.event))
    ensures Firsts(c, known, open, done, trace) == Firsts(c, known, open, done, FirstOccurrences(seen, trace))
    decreases |trace|
  {
    if trace != [] {
      var d, rest := trace[0], trace[1..];
      assert d in trace && forall e :: e in rest ==> e in trace;
      if d.event.id in seen {
        FirstsAreOccurrences(c, known, open, done, seen, rest);
      } else {
        var now := if d.event.id !in done && Claimable(c, known, open, d.event) then done + {d.event.id} else done;
        FirstsAreOccurrences(c, known, open, now, seen + {d.event.id}, rest);
        var later := FirstOccurrences(seen + {d.event.id}, rest);
        assert ([d] + later)[0] == d && ([d] + later)[1..] == later;
      }
    }
  }

  lemma FirstThenRest(c: Config, s: Tables, d: Delivery, rest: seq<Delivery>)
    ensures AfterTrace(c, s, [d] + rest) == AfterTrace(c, Deliver(c, s, d), rest)
  {
    assert ([d] + rest)[0] == d && ([d] + rest)[1..] == rest;
  }

  // ---------------------------------------------------------------------------
  // What an event may do to the tenants
  // ---------------------------------------------------------------------------

  ghost predicate TiersAllowed(c: Config, tenants: map<TenantId, Tenant>) {
    forall t :: t in tenants ==> tenants[t].tier in c.tiers
  }

  /** Whatever events arrive, every tenant keeps an existing tier, and tenants are neither added nor removed. */
  lemma {:induction false} TiersStayAllowed(c: Config, s: Tables, trace: seq<Delivery>)
    requires TiersAllowed(c, s.tenants)
    ensures TiersAllowed(c, AfterTrace(c, s, trace).tenants) && AfterTrace(c, s, trace).tenants.Keys == s.tenants.Keys
    decreases |trace|
  {
    if trace != [] {
      TiersStayAllowed(c, Deliver(c, s, trace[0]), trace[1..]);
    }
  }

  /** The tenants an event speaks of: the resolved one for a checkout, else those with its customer or subscription. */
  predicate Concerns(e: Event, resolved: Option<TenantId>, id: TenantId, row: Tenant) {
    if e.kind == "checkout.session.completed" then resolved == Some(id)
    else SqlEqual(row.customer, e.data.customer)
         || (e.kind in {"customer.subscription.updated", "customer.subscription.deleted"}
             && SqlEqual(row.subscription, e.data.id))
  }

  /** An event changes no tenant it does not concern, and no tenant ever loses its Stripe customer or its period's end. */
  lemma OnlyConcernedChange(c: Config, s: Tables, e: Event, id: TenantId)
    requires id in s.tenants
    ensures var after := Process(c, s, e).1.tenants;
            && id in after
            && (!Concerns(e, Resolved(c, s.tenants, e.data), id, s.tenants[id]) ==> after[id] == s.tenants[id])
            && (s.tenants[id].customer.Some? ==> after[id].customer.Some?)
            && (s.tenants[id].periodEnd.Some? ==> after[id].periodEnd.Some?)
  {
    hide Resolved;
  }

  /** A processed cancellation leaves no tenant with the subscription, and its tenants on the free tier. */
  lemma DeletionUnlinks(c: Config, s: Tables, e: Event, id: TenantId)
    requires e.kind == "customer.subscription.deleted" && Process(c, s, e).0.Processed? && id in s.tenants
    ensures var after := Process(c, s, e).1.tenants[id];
            && !SqlEqual(after.subscription, e.data.id)
            && (Concerns(e, None, id, s.tenants[id]) ==>
                  after == s.tenants[id].(tier := "free", status := "canceled", subscription := None))
  {
    hide Resolved;
  }

  // ---------------------------------------------------------------------------
  // Each event's update happens at most once
  // ---------------------------------------------------------------------------

  /** The tenants after the updates of some deliveries, with no claims at all. */
  function Effects(c: Config, tenants: map<TenantId, Tenant>, trace: seq<Delivery>): map<TenantId, Tenant>
    decreases |trace|
  {
    if trace == [] then tenants
    else
      var d := trace[0];
      var updated := Updated(c, tenants, d.event, Resolved(c, tenants, d.event.data));
      Effects(c, if d.dies || updated.None? then tenants else updated.value, trace[1..])
  }

  /** The tenants table is as if each first claimable delivery had made its update once, with no event table. */
  lemma {:induction false} EachEffectOnce(c: Config, s: Tables, trace: seq<Delivery>)
    requires PicksAMember(c)
    ensures AfterTrace(c, s, trace).tenants == Effects(c, s.tenants, Firsts(c, s.tenants.Keys, Open(s), Done(s), trace))
    decreases |trace|
  {
    if trace != [] {
      var d := trace[0];
      var next := Deliver(c, s, d);
      ClaimsIff(c, s, d.event);
      EachEffectOnce(c, next, trace[1..]);
      if d.event.id !in Done(s) && Claimable(c, s.tenants.Keys, Open(s), d.event) {
        DeliveredMarks(c, s, d);
        OpenAmongDone(c, s.tenants.Keys, Open(s), Done(next), d.event.id, trace[1..]);
        EffectThenRest(c, s.tenants, d, Firsts(c, s.tenants.Keys, Open(s), Done(next), trace[1..]));
      }
    }
  }

  lemma EffectThenRest(c: Config, tenants: map<TenantId, Tenant>, d: Delivery, rest: seq<Delivery>)
    ensures var updated := Updated(c, tenants, d.event, Resolved(c, tenants, d.event.data));
            Effects(c, tenants, [d] + rest) == Effects(c, if d.dies || updated.None? then tenants else updated.value, rest)
  {
    assert ([d] + rest)[0] == d && ([d] + rest)[1..] == rest;
  }

  ghost predicate NotAmong(f: seq<Delivery>, done: set<string>) {
    forall i :: 0 <= i < |f| ==> f[i].event.id !in done
  }

  ghost predicate DistinctIds(f: seq<Delivery>) {
    forall i, j :: 0 <= i < j < |f| ==> f[i].event.id != f[j].event.id
  }

  /** No event is among the first deliveries twice, and none that was done before. */
  lemma {:induction false} FirstsAreDistinct(
    c: Config, known: set<TenantId>, open: set<string>, done: set<string>, trace: seq<Delivery>)
    ensures NotAmong(Firsts(c, known, open, done, trace), done) && DistinctIds(Firsts(c, known, open, done, trace))
    decreases |trace|
  {
    if trace != [] {
      var e := trace[0].event;
      FirstsAreDistinct(c, known, open, done + {e.id}, trace[1..]);
      FirstsAreDistinct(c, known, open, done, trace[1..]);
      if e.id !in done {
        DistinctGrows(trace[0], Firsts(c, known, open, done + {e.id}, trace[1..]), done);
      }
    }
  }

  lemma DistinctGrows(d: Delivery, rest: seq<Delivery>, done: set<string>)
    requires NotAmong(rest, done + {d.event.id}) && DistinctIds(rest) && d.event.id !in done
    ensures NotAmong([d] + rest, done) && DistinctIds([d] + rest)
  {
    forall i | 0 <= i < |rest| ensures rest[i].event.id !in done && rest[i].event.id != d.event.id {
      assert rest[i].event.id !in done + {d.event.id};
    }
  }

  /** A worker that dies after its claim loses the event: no redelivery of it ever reaches the tenants. */
  lemma ClaimedIsLost(c: Config, s: Tables, d: Delivery, redelivered: seq<Delivery>)
    requires PicksAMember(c) && d.dies && d.event.id !in Done(s) && Claimable(c, s.tenants.Keys, Open(s), d.event)
    requires forall r :: r in redelivered ==> r.event.id == d.event.id
    ensures AfterTrace(c, Deliver(c, s, d), redelivered).tenants == s.tenants
  {
    DeliveredMarks(c, s, d);
    var next := Deliver(c, s, d);
    NothingFirst(c, next.tenants.Keys, Open(next), Done(next), redelivered, d.event.id);
    EachEffectOnce(c, next, redelivered);
  }

  lemma {:induction false} NothingFirst(
    c: Config, known: set<TenantId>, open: set<string>, done: set<string>, trace: seq<Delivery>, id: string)
    requires id in done && forall r :: r in trace ==> r.event.id == id
    ensures Firsts(c, known, open, done, trace) == []
    decreases |trace|
  {
    if trace != [] {
      assert trace[0] in trace;
      NothingFirst(c, known, open, done, trace[1..], id);
    }
  }
}
