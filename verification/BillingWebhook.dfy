/** The replay-safe Stripe webhook (apps/api/src/services/billing-webhook.service.ts). */
module BillingWebhook {
  import opened Wrappers

  datatype Tier = FREE | STARTER | GROWTH | BUSINESS | ENTERPRISE

  datatype Status = TRIALING | ACTIVE | PAST_DUE | CANCELED | UNPAID | INCOMPLETE

  datatype Kind =
    | CheckoutCompleted | SubscriptionCreated | SubscriptionUpdated | SubscriptionDeleted
    | PaymentSucceeded | PaymentFailed | Unhandled

  datatype Plan = Plan(id: string, tier: Tier)

  /** The fields read from an event's object; absent or ill-typed fields are None. */
  datatype Event = Event(
    id: string,
    kind: Kind,
    metaOrganization: Option<string>,
    customer: Option<string>,
    objectId: Option<string>,
    subscription: Option<string>,
    status: Option<string>,
    priceId: Option<string>,
    quantity: Option<int>,
    cancelAtPeriodEnd: bool,
    canceledAt: Option<int>,
    periodEnd: Option<int>,
    itemPeriodEnd: Option<int>)

  datatype Subscription = Subscription(
    planId: Option<string>,
    plan: Tier,
    status: Status,
    customerId: Option<string>,
    subscriptionId: Option<string>,
    priceId: Option<string>,
    seats: int,
    currentPeriodEnd: Option<int>,
    cancelAtPeriodEnd: bool,
    canceledAt: Option<int>)

  datatype Entry = Entry(organizationId: string, kind: Kind)

  /** Reference data that the webhook only reads. */
  datatype Catalog = Catalog(organizations: set<string>, planOfPrice: map<string, Plan>, freePlanId: Option<string>)

  /** One subscription per organization, and one ledger entry per Stripe event id. */
  datatype Db = Db(subs: map<string, Subscription>, ledger: map<string, Entry>)

  datatype Outcome = Applied | Duplicate | Ignored | Raised

  // ---- Mappings ----

  function Str(v: Option<string>): Option<string> {
    if v == Some("") then None else v
  }

  function Or<T>(v: Option<T>, other: Option<T>): Option<T> {
    if v.Some? then v else other
  }

  function MapStatus(s: Option<string>): Status {
    if s.None? then INCOMPLETE
    else if s.value == "trialing" then TRIALING
    else if s.value == "active" then ACTIVE
    else if s.value == "past_due" || s.value == "paused" then PAST_DUE
    else if s.value == "canceled" then CANCELED
    else if s.value == "unpaid" then UNPAID
    else INCOMPLETE
  }

  // ---- The effects of an event on the row of its organization ----

  function FreshRow(plan: Tier, status: Status): Subscription {
    Subscription(None, plan, status, None, None, None, 1, None, false, None)
  }

  function Linked(row: Subscription, e: Event): Subscription {
    row.(customerId := Or(Str(e.customer), row.customerId), subscriptionId := Or(Str(e.subscription), row.subscriptionId))
  }

  function PlanOf(c: Catalog, e: Event): Option<Plan> {
    var price := Str(e.priceId);
    if price.Some? && price.value in c.planOfPrice then Some(c.planOfPrice[price.value]) else None
  }

  function Subscribed(row: Subscription, c: Catalog, e: Event): Subscription {
    var plan := PlanOf(c, e);
    row.(status := MapStatus(Str(e.status)),
         cancelAtPeriodEnd := e.cancelAtPeriodEnd,
         canceledAt := e.canceledAt,
         customerId := Or(Str(e.customer), row.customerId),
         subscriptionId := Or(Str(e.objectId), row.subscriptionId),
         priceId := Or(Str(e.priceId), row.priceId),
         planId := if plan.Some? then Some(plan.value.id) else row.planId,
         plan := if plan.Some? then plan.value.tier else row.plan,
         seats := if e.quantity.Some? then e.quantity.value else row.seats,
         currentPeriodEnd := Or(Or(e.periodEnd, e.itemPeriodEnd), row.currentPeriodEnd))
  }

  function Cancelled(row: Subscription, c: Catalog, now: int): Subscription {
    row.(status := CANCELED, plan := FREE, planId := c.freePlanId, subscriptionId := None, priceId := None,
         cancelAtPeriodEnd := false, canceledAt := Some(now))
  }

  /** The organization's row after the event: None where an update finds no row. */
  function Effect(row: Option<Subscription>, c: Catalog, e: Event, now: int): Option<Subscription> {
    match e.kind
    case CheckoutCompleted => Some(Linked(if row.Some? then row.value else FreshRow(FREE, INCOMPLETE), e))
    case SubscriptionCreated => Some(Subscribed(if row.Some? then row.value else FreshRow(FREE, TRIALING), c, e))
    case SubscriptionUpdated => Some(Subscribed(if row.Some? then row.value else FreshRow(FREE, TRIALING), c, e))
    case SubscriptionDeleted => if row.Some? then Some(Cancelled(row.value, c, now)) else None
    case PaymentSucceeded => if row.Some? then Some(row.value.(status := ACTIVE)) else None
    case PaymentFailed => if row.Some? then Some(row.value.(status := PAST_DUE)) else None
    case Unhandled => row
  }

  function RowOf(subs: map<string, Subscription>, org: string): Option<Subscription> {
    if org in subs then Some(subs[org]) else None
  }

  function Put(subs: map<string, Subscription>, org: string, row: Option<Subscription>): map<string, Subscription> {
    if row.None? then subs else subs[org := row.value]
  }

  // ---- Unique columns and tenant resolution ----

  predicate SharesStripeId(a: Subscription, b: Subscription) {
    || (a.customerId.Some? && a.customerId == b.customerId)
    || (a.subscriptionId.Some? && a.subscriptionId == b.subscriptionId)
  }

  /** Stripe customer and subscription ids are unique columns. */
  ghost predicate Unique(subs: map<string, Subscription>) {
    forall a, b :: a in subs && b in subs && a != b ==>
      && (subs[a].customerId.Some? ==> subs[a].customerId != subs[b].customerId)
      && (subs[a].subscriptionId.Some? ==> subs[a].subscriptionId != subs[b].subscriptionId)
  }

  /** Writing this row would break a unique column. */
  predicate Collides(subs: map<string, Subscription>, org: string, row: Option<Subscription>) {
    row.Some? && exists other :: other in subs && other != org && SharesStripeId(subs[other], row.value)
  }

  predicate HasCustomer(subs: map<string, Subscription>, org: string, customer: string) {
    org in subs && subs[org].customerId == Some(customer)
  }

  ghost function OrgOfCustomer(subs: map<string, Subscription>, customer: string): (org: Option<string>)
    ensures org.Some? ==> HasCustomer(subs, org.value, customer)
    ensures org.None? ==> forall o :: !HasCustomer(subs, o, customer)
  {
    if o :| HasCustomer(subs, o, customer) then Some(o) else None
  }

  /** Prefer the organization named in the metadata, else the one with the Stripe customer. */
  ghost function ResolveOrg(subs: map<string, Subscription>, e: Event): Option<string> {
    if Str(e.metaOrganization).Some? then Str(e.metaOrganization)
    else if Str(e.customer).Some? then OrgOfCustomer(subs, Str(e.customer).value)
    else None
  }

  // ---- One delivery ----

  /** The database after a delivery, and what the webhook answers. */
  ghost function Handle(db: Db, c: Catalog, e: Event, now: int): (Db, Outcome) {
    var org := ResolveOrg(db.subs, e);
    if e.kind == Unhandled || org.None? then (db, Ignored)
    else if e.id in db.ledger then (db, Duplicate)
    else if org.value !in c.organizations then (db, Raised)
    else
      var row := Effect(RowOf(db.subs, org.value), c, e, now);
      if Collides(db.subs, org.value, row) then (db, Duplicate)
      else (Db(Put(db.subs, org.value, row), db.ledger[e.id := Entry(org.value, e.kind)]), Applied)
  }

  datatype Delivery = Delivery(event: Event, now: int)

  ghost function After(db: Db, c: Catalog, d: Delivery): Db {
    Handle(db, c, d.event, d.now).0
  }

  ghost function Run(db: Db, c: Catalog, ds: seq<Delivery>): Db
    decreases |ds|
  {
    if ds == [] then db else Run(After(db, c, ds[0]), c, ds[1..])
  }

  // ---- Replays ----

  /** The deliveries that were applied, in order. */
  ghost function AppliedOf(db: Db, c: Catalog, ds: seq<Delivery>): seq<Delivery>
    decreases |ds|
  {
    if ds == [] then []
    else
      var (next, outcome) := Handle(db, c, ds[0].event, ds[0].now);
      (if outcome == Applied then [ds[0]] else []) + AppliedOf(next, c, ds[1..])
  }

  function Ids(ds: seq<Delivery>): set<string> {
    set d | d in ds :: d.event.id
  }

  ghost predicate DistinctIds(ds: seq<Delivery>) {
    forall i, j :: 0 <= i < j < |ds| ==> ds[i].event.id != ds[j].event.id
  }

  lemma IdsCons(d: Delivery, rest: seq<Delivery>)
    ensures Ids([d] + rest) == {d.event.id} + Ids(rest)
  {
  }

  /** The first delivery, and what the others do from there. */
  lemma AppliedCons(db: Db, c: Catalog, ds: seq<Delivery>)
    requires ds != []
    ensures var (next, outcome) := Handle(db, c, ds[0].event, ds[0].now);
      && AppliedOf(db, c, ds) == (if outcome == Applied then [ds[0]] else []) + AppliedOf(next, c, ds[1..])
      && Run(db, c, ds) == Run(next, c, ds[1..])
      && next.ledger.Keys == db.ledger.Keys + (if outcome == Applied then {ds[0].event.id} else {})
      && (outcome == Applied ==> ds[0].event.id !in db.ledger)
  {
  }

  lemma DistinctCons(d: Delivery, rest: seq<Delivery>)
    requires DistinctIds(rest) && d.event.id !in Ids(rest)
    ensures DistinctIds([d] + rest)
  {
    assert forall j :: 0 <= j < |rest| ==> rest[j] in rest && rest[j].event.id in Ids(rest);
  }

  /** The ledger grows by exactly the ids of the applied deliveries, each applied once and never before. */
  lemma {:induction false} AppliedOnce(db: Db, c: Catalog, ds: seq<Delivery>)
    ensures var applied := AppliedOf(db, c, ds);
      && DistinctIds(applied)
      && Ids(applied) !! db.ledger.Keys
      && Run(db, c, ds).ledger.Keys == db.ledger.Keys + Ids(applied)
    decreases |ds|
  {
    if ds == [] {
      assert Ids([]) == {};
    } else {
      var (next, outcome) := Handle(db, c, ds[0].event, ds[0].now);
      var rest := AppliedOf(next, c, ds[1..]);
      AppliedOnce(next, c, ds[1..]);
      AppliedCons(db, c, ds);
      assert [] + rest == rest;
      if outcome == Applied {
        IdsCons(ds[0], rest);
        DistinctCons(ds[0], rest);
      }
    }
  }

  /**
   * For every sequence of deliveries, with repeats anywhere, the result is that of
   * delivering only the applied ones, and all of these apply again when delivered alone.
   */
  lemma {:induction false} ReplaysChangeNothing(db: Db, c: Catalog, ds: seq<Delivery>)
    ensures var applied := AppliedOf(db, c, ds);
      Run(db, c, ds) == Run(db, c, applied) && AppliedOf(db, c, applied) == applied
    decreases |ds|
  {
    if ds != [] {
      var (next, outcome) := Handle(db, c, ds[0].event, ds[0].now);
      var rest := AppliedOf(next, c, ds[1..]);
      ReplaysChangeNothing(next, c, ds[1..]);
      if outcome == Applied {
        assert ([ds[0]] + rest)[1..] == rest;
      } else {
        assert [] + rest == rest;
      }
    }
  }

  /** In particular a repeat of anything applied before can be dropped from the sequence. */
  lemma {:induction false} RepeatCanBeDropped(db: Db, c: Catalog, earlier: seq<Delivery>, repeat: Delivery, later: seq<Delivery>)
    requires repeat.event.id in Run(db, c, earlier).ledger
    ensures Run(db, c, earlier + [repeat] + later) == Run(db, c, earlier + later)
    decreases |earlier|
  {
    if earlier == [] {
      assert [] + [repeat] + later == [repeat] + later && [] + later == later;
      assert ([repeat] + later)[1..] == later;
    } else {
      assert (earlier + [repeat] + later)[1..] == earlier[1..] + [repeat] + later;
      assert (earlier + later)[1..] == earlier[1..] + later;
      RepeatCanBeDropped(After(db, c, earlier[0]), c, earlier[1..], repeat, later);
    }
  }

  /** Unresolved, colliding and failed deliveries leave no trace; only an applied one enters the ledger. */
  lemma OutcomeTellsEffect(db: Db, c: Catalog, e: Event, now: int)
    ensures var (next, outcome) := Handle(db, c, e, now);
      && (outcome == Applied <==> e.id !in db.ledger && e.id in next.ledger)
      && (outcome != Applied ==> next == db)
  {
  }

  // ---- Tenants ----

  /** The unique columns stay unique, and an event changes at most the row of its own organization. */
  lemma HandleKeepsTenantsApart(db: Db, c: Catalog, e: Event, now: int)
    requires Unique(db.subs)
    ensures var next := Handle(db, c, e, now).0;
      && Unique(next.subs)
      && forall o :: ResolveOrg(db.subs, e) != Some(o) ==>
           (o in next.subs <==> o in db.subs) && (o in db.subs ==> next.subs[o] == db.subs[o])
  {
  }

  lemma {:induction false} RunKeepsUnique(db: Db, c: Catalog, ds: seq<Delivery>)
    requires Unique(db.subs)
    ensures Unique(Run(db, c, ds).subs)
    decreases |ds|
  {
    if ds != [] {
      HandleKeepsTenantsApart(db, c, ds[0].event, ds[0].now);
      RunKeepsUnique(After(db, c, ds[0]), c, ds[1..]);
    }
  }

  /** Under unique columns a Stripe customer belongs to at most one organization. */
  lemma CustomerIdentifiesOrg(subs: map<string, Subscription>, org: string, customer: string)
    requires Unique(subs) && HasCustomer(subs, org, customer)
    ensures OrgOfCustomer(subs, customer) == Some(org)
  {
    var found := OrgOfCustomer(subs, customer);
    assert SharesStripeId(subs[org], subs[found.value]);
  }

  /**
   * An event that could not be attributed because its customer was unknown was left out of
   * the ledger, so that a redelivery after the checkout that links the customer is
   * attributed to that organization and applied.
   */
  lemma UnresolvedCanApplyLater(db: Db, c: Catalog, invoice: Event, checkout: Event, t1: int, t2: int, t3: int)
    requires Unique(db.subs)
    requires invoice.kind in {PaymentSucceeded, PaymentFailed} && Str(invoice.metaOrganization).None? && Str(invoice.customer).Some?
    requires Handle(db, c, invoice, t1).1 == Ignored && invoice.id !in db.ledger && invoice.id != checkout.id
    requires checkout.kind == CheckoutCompleted && checkout.customer == invoice.customer
    requires Handle(db, c, checkout, t2).1 == Applied
    ensures var db1 := Handle(db, c, invoice, t1).0;
      var db2 := Handle(db1, c, checkout, t2).0;
      var (db3, outcome) := Handle(db2, c, invoice, t3);
      && outcome == Applied
      && ResolveOrg(db2.subs, invoice) == ResolveOrg(db.subs, checkout)
      && db3.subs[ResolveOrg(db.subs, checkout).value].status
         == (if invoice.kind == PaymentSucceeded then ACTIVE else PAST_DUE)
  {
    var org := ResolveOrg(db.subs, checkout).value;
    var db2 := Handle(db, c, checkout, t2).0;
    HandleKeepsTenantsApart(db, c, checkout, t2);
    assert HasCustomer(db2.subs, org, Str(invoice.customer).value);
    CustomerIdentifiesOrg(db2.subs, org, Str(invoice.customer).value);
    var row := db2.subs[org];
    var paid := Effect(Some(row), c, invoice, t3).value;
    assert forall o :: o in db2.subs && o != org ==> SharesStripeId(db2.subs[o], paid) == SharesStripeId(db2.subs[o], row);
    assert forall o :: o in db2.subs && o != org ==> !SharesStripeId(db2.subs[org], db2.subs[o]);
  }

  // ---- What "duplicate" means ----

  /** The row that the event would write. */
  ghost function Written(db: Db, c: Catalog, e: Event, now: int): Option<Subscription>
    requires ResolveOrg(db.subs, e).Some?
  {
    Effect(RowOf(db.subs, ResolveOrg(db.subs, e).value), c, e, now)
  }

  /**
   * The webhook answers "duplicate" for every unique violation. An attributed event so
   * answered has been applied before if and only if its own id is the one that collided:
   * it has not if it carries a Stripe id that another organization's row already holds.
   */
  lemma DuplicateMeansSeenIff(db: Db, c: Catalog, e: Event, now: int)
    requires e.kind != Unhandled && ResolveOrg(db.subs, e).Some? && ResolveOrg(db.subs, e).value in c.organizations
    ensures Handle(db, c, e, now).1 == Duplicate
       <==> e.id in db.ledger || Collides(db.subs, ResolveOrg(db.subs, e).value, Written(db, c, e, now))
    ensures Handle(db, c, e, now).1 == Duplicate && e.id !in db.ledger
        ==> exists other :: other in db.subs && other != ResolveOrg(db.subs, e).value
              && SharesStripeId(db.subs[other], Written(db, c, e, now).value)
  {
  }

  /** Such an event is answered "duplicate" without ever having been applied, and again on every retry. */
  lemma FirstDeliveryCanBeDuplicate(c: Catalog, e: Event, db: Db, now: int)
    requires c == Catalog({"a", "b"}, map[], None)
    requires e == Event("evt", CheckoutCompleted, Some("b"), Some("cus"), None, None, None, None, None, false, None, None, None)
    requires db == Db(map["a" := FreshRow(FREE, ACTIVE).(customerId := Some("cus"))], map[])
    ensures Unique(db.subs) && e.id !in db.ledger && Handle(db, c, e, now) == (db, Duplicate)
  {
    var row := Effect(RowOf(db.subs, "b"), c, e, now).value;
    assert SharesStripeId(db.subs["a"], row);
  }

  // ---- The service ----

  class Service {
    const catalog: Catalog
    var subs: map<string, Subscription>
    var ledger: map<string, Entry>

    ghost function Tables(): Db
      reads this
    {
      Db(subs, ledger)
    }

    constructor (catalog: Catalog)
      ensures this.catalog == catalog && Tables() == Db(map[], map[])
    {
      this.catalog, subs, ledger := catalog, map[], map[];
    }

    method FindOrg(e: Event) returns (org: Option<string>)
      requires Unique(subs)
      ensures org == ResolveOrg(subs, e)
    {
      if Str(e.metaOrganization).Some? {
        return Str(e.metaOrganization);
      }
      if Str(e.customer).None? {
        return None;
      }
      var customer := Str(e.customer).value;
      if exists o :: o in subs && subs[o].customerId == Some(customer) {
        var o :| o in subs && subs[o].customerId == Some(customer);
        CustomerIdentifiesOrg(subs, o, customer);
        return Some(o);
      }
      return None;
    }

    /** One transaction: the ledger entry and the effect are kept together or not at all. */
    method HandleEvent(e: Event, now: int) returns (outcome: Outcome)
      requires Unique(subs)
      modifies this
      ensures (Tables(), outcome) == Handle(old(Tables()), catalog, e, now)
      ensures Unique(subs)
    {
      HandleKeepsTenantsApart(Tables(), catalog, e, now);
      if e.kind == Unhandled {
        return Ignored;
      }
      var org := FindOrg(e);
      if org.None? {
        return Ignored;
      }
      if e.id in ledger {
        return Duplicate;
      }
      if org.value !in catalog.organizations {
        return Raised;
      }
      var before, entries := subs, ledger;
      ledger := ledger[e.id := Entry(org.value, e.kind)];
      var row := if org.value in subs then Some(subs[org.value]) else None;
      var updated: Option<Subscription> := row;
      match e.kind {
        case CheckoutCompleted =>
          updated := Some(Linked(if row.Some? then row.value else FreshRow(FREE, INCOMPLETE), e));
        case SubscriptionCreated =>
          updated := Some(Subscribed(if row.Some? then row.value else FreshRow(FREE, TRIALING), catalog, e));
        case SubscriptionUpdated =>
          updated := Some(Subscribed(if row.Some? then row.value else FreshRow(FREE, TRIALING), catalog, e));
        case SubscriptionDeleted =>
          if row.Some? { updated := Some(Cancelled(row.value, catalog, now)); }
        case PaymentSucceeded =>
          if row.Some? { updated := Some(row.value.(status := ACTIVE)); }
        case PaymentFailed =>
          if row.Some? { updated := Some(row.value.(status := PAST_DUE)); }
        case Unhandled =>
      }
      if Collides(subs, org.value, updated) {
        subs, ledger := before, entries;
        return Duplicate;
      }
      subs := Put(subs, org.value, updated);
      return Applied;
    }
  }
}
