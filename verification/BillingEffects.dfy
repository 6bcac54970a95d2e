/**
 * What the events of Stripe leave behind: the row of the organization, field by field,
 * after each kind of applied event, and its plan and status after any sequence of
 * deliveries.
 */
module BillingEffects {
  import opened Wrappers
  import opened BillingWebhook

  /** Given and not empty. */
  predicate Given(v: Option<string>) {
    v.Some? && v.value != ""
  }

  predicate KnownPrice(c: Catalog, e: Event) {
    Given(e.priceId) && e.priceId.value in c.planOfPrice
  }

  /** The meaning of Stripe's status words. */
  predicate StatusFor(word: Option<string>, status: Status) {
    match status
    case TRIALING => word == Some("trialing")
    case ACTIVE => word == Some("active")
    case PAST_DUE => word == Some("past_due") || word == Some("paused")
    case CANCELED => word == Some("canceled")
    case UNPAID => word == Some("unpaid")
    case INCOMPLETE =>
      word.None? || word.value !in ["trialing", "active", "past_due", "paused", "canceled", "unpaid"]
  }

  /** The organization that the ledger names for an applied event. */
  ghost function OrgOf(db: Db, c: Catalog, e: Event, now: int): string
    requires Handle(db, c, e, now).1 == Applied
  {
    Handle(db, c, e, now).0.ledger[e.id].organizationId
  }

  /** The organization of the metadata if given, else the one whose row holds the customer; its row alone may change. */
  lemma AppliedTo(db: Db, c: Catalog, e: Event, now: int)
    requires Handle(db, c, e, now).1 == Applied
    ensures var next, org := Handle(db, c, e, now).0, OrgOf(db, c, e, now);
      && next.ledger == db.ledger[e.id := Entry(org, e.kind)] && org in c.organizations
      && (if Given(e.metaOrganization) then org == e.metaOrganization.value
          else Given(e.customer) && org in db.subs && db.subs[org].customerId == e.customer)
      && (forall o :: o != org ==>
            (o in next.subs <==> o in db.subs) && (o in db.subs ==> next.subs[o] == db.subs[o]))
  {
  }

  /** The event names an organization, or a customer that some organization has. */
  predicate Attributable(db: Db, e: Event) {
    Given(e.metaOrganization)
    || (Given(e.customer) && exists o :: o in db.subs && db.subs[o].customerId == e.customer)
  }

  /** An event is ignored exactly if it is of no handled kind or cannot be attributed; one for an unknown organization raises. */
  lemma IgnoredIff(db: Db, c: Catalog, e: Event, now: int)
    ensures Handle(db, c, e, now).1 == Ignored <==> e.kind == Unhandled || !Attributable(db, e)
    ensures Handle(db, c, e, now).1 == Raised ==>
      e.id !in db.ledger && ResolveOrg(db.subs, e).Some? && ResolveOrg(db.subs, e).value !in c.organizations
  {
    if Given(e.customer) {
      if o :| o in db.subs && db.subs[o].customerId == e.customer {
        assert HasCustomer(db.subs, o, e.customer.value);
      }
    }
  }

  // ---- Each kind of event ----

  /** A deletion puts the organization on the free plan, and forgets the subscription and its price. */
  lemma DeletionLeaves(db: Db, c: Catalog, e: Event, now: int)
    requires Handle(db, c, e, now).1 == Applied && e.kind == SubscriptionDeleted
    ensures var next, org := Handle(db, c, e, now).0, OrgOf(db, c, e, now);
      if org in db.subs then
        var prior := db.subs[org];
        org in next.subs && next.subs[org]
        == Subscription(c.freePlanId, FREE, CANCELED, prior.customerId, None, None, prior.seats, prior.currentPeriodEnd, false, Some(now))
      else next.subs == db.subs
  {
  }

  /** A created or updated subscription sets the plan of its price if that is known, and keeps the plan if not. */
  lemma SubscriptionLeaves(db: Db, c: Catalog, e: Event, now: int)
    requires Handle(db, c, e, now).1 == Applied && e.kind in {SubscriptionCreated, SubscriptionUpdated}
    ensures var next, org := Handle(db, c, e, now).0, OrgOf(db, c, e, now);
      var prior := if org in db.subs then db.subs[org]
                 else Subscription(None, FREE, TRIALING, None, None, None, 1, None, false, None);
      && org in next.subs
      && var row := next.subs[org];
         && (if KnownPrice(c, e) then
               row.plan == c.planOfPrice[e.priceId.value].tier && row.planId == Some(c.planOfPrice[e.priceId.value].id)
             else row.plan == prior.plan && row.planId == prior.planId)
         && StatusFor(e.status, row.status)
         && row.customerId == (if Given(e.customer) then e.customer else prior.customerId)
         && row.subscriptionId == (if Given(e.objectId) then e.objectId else prior.subscriptionId)
         && row.priceId == (if Given(e.priceId) then e.priceId else prior.priceId)
         && row.seats == (if e.quantity.Some? then e.quantity.value else prior.seats)
         && row.currentPeriodEnd == (if e.periodEnd.Some? then e.periodEnd
                                     else if e.itemPeriodEnd.Some? then e.itemPeriodEnd else prior.currentPeriodEnd)
         && row.cancelAtPeriodEnd == e.cancelAtPeriodEnd && row.canceledAt == e.canceledAt
  {
  }

  /** A checkout links customer and subscription: a new row is FREE and INCOMPLETE, an existing one keeps all else. */
  lemma CheckoutLeaves(db: Db, c: Catalog, e: Event, now: int)
    requires Handle(db, c, e, now).1 == Applied && e.kind == CheckoutCompleted
    ensures var next, org := Handle(db, c, e, now).0, OrgOf(db, c, e, now);
      var prior := if org in db.subs then db.subs[org]
                 else Subscription(None, FREE, INCOMPLETE, None, None, None, 1, None, false, None);
      org in next.subs && next.subs[org]
      == prior.(customerId := if Given(e.customer) then e.customer else prior.customerId,
              subscriptionId := if Given(e.subscription) then e.subscription else prior.subscriptionId)
  {
  }

  /** A paid invoice makes an existing row ACTIVE, a failed one PAST_DUE, and nothing else changes. */
  lemma InvoiceLeaves(db: Db, c: Catalog, e: Event, now: int)
    requires Handle(db, c, e, now).1 == Applied && e.kind in {PaymentSucceeded, PaymentFailed}
    ensures var next, org := Handle(db, c, e, now).0, OrgOf(db, c, e, now);
      if org in db.subs then
        org in next.subs
        && next.subs[org] == db.subs[org].(status := if e.kind == PaymentSucceeded then ACTIVE else PAST_DUE)
      else next.subs == db.subs
  {
  }

  // ---- Plans over every sequence of deliveries ----

  datatype Record = Record(organizationId: string, event: Event)

  /** The applied events with the organizations they were applied to, in order. */
  ghost function Log(db: Db, c: Catalog, ds: seq<Delivery>): seq<Record>
    decreases |ds|
  {
    if ds == [] then []
    else
      var (next, outcome) := Handle(db, c, ds[0].event, ds[0].now);
      (if outcome == Applied then [Record(OrgOf(db, c, ds[0].event, ds[0].now), ds[0].event)] else []) + Log(next, c, ds[1..])
  }

  predicate SetsPlan(r: Record, c: Catalog, org: string) {
    && r.organizationId == org
    && (r.event.kind == SubscriptionDeleted
        || ((r.event.kind == SubscriptionCreated || r.event.kind == SubscriptionUpdated) && KnownPrice(c, r.event)))
  }

  /** The plan of the last event that sets one: FREE for a deletion, else that of its price. */
  function LastPlan(log: seq<Record>, c: Catalog, org: string, before: Tier): Tier {
    if log == [] then before
    else
      var last := log[|log| - 1];
      if !SetsPlan(last, c, org) then LastPlan(log[..|log| - 1], c, org, before)
      else if last.event.kind == SubscriptionDeleted then FREE
      else c.planOfPrice[last.event.priceId.value].tier
  }

  /** An organization without a row counts as FREE. */
  function PlanIn(db: Db, org: string): Tier {
    if org in db.subs then db.subs[org].plan else FREE
  }

  lemma {:induction false} LastPlanJoin(r: Record, rest: seq<Record>, c: Catalog, org: string, before: Tier)
    ensures LastPlan([r] + rest, c, org, before) == LastPlan(rest, c, org, LastPlan([r], c, org, before))
    decreases |rest|
  {
    if rest == [] {
      assert [r] + rest == [r];
    } else {
      assert ([r] + rest)[..|rest|] == [r] + rest[..|rest| - 1];
      LastPlanJoin(r, rest[..|rest| - 1], c, org, before);
    }
  }

  lemma PlanStep(db: Db, c: Catalog, e: Event, now: int, org: string)
    requires Handle(db, c, e, now).1 == Applied
    ensures PlanIn(Handle(db, c, e, now).0, org) == LastPlan([Record(OrgOf(db, c, e, now), e)], c, org, PlanIn(db, org))
  {
    AppliedTo(db, c, e, now);
    assert [Record(OrgOf(db, c, e, now), e)][..0] == [];
    match e.kind
    case SubscriptionDeleted => DeletionLeaves(db, c, e, now);
    case SubscriptionCreated => SubscriptionLeaves(db, c, e, now);
    case SubscriptionUpdated => SubscriptionLeaves(db, c, e, now);
    case CheckoutCompleted => CheckoutLeaves(db, c, e, now);
    case PaymentSucceeded => InvoiceLeaves(db, c, e, now);
    case PaymentFailed => InvoiceLeaves(db, c, e, now);
    case Unhandled =>
  }

  /**
   * Over every sequence of deliveries, with repeats and failures anywhere, the plan of an
   * organization is that of its last applied subscription event with a known price, or
   * FREE if a deletion was applied after it.
   */
  lemma {:induction false} PlanIsLastSet(db: Db, c: Catalog, ds: seq<Delivery>, org: string)
    ensures PlanIn(Run(db, c, ds), org) == LastPlan(Log(db, c, ds), c, org, PlanIn(db, org))
    decreases |ds|
  {
    if ds != [] {
      var e, now := ds[0].event, ds[0].now;
      var (next, outcome) := Handle(db, c, e, now);
      var rest := Log(next, c, ds[1..]);
      PlanIsLastSet(next, c, ds[1..], org);
      if outcome == Applied {
        PlanStep(db, c, e, now, org);
        LastPlanJoin(Record(OrgOf(db, c, e, now), e), rest, c, org, PlanIn(db, org));
      } else {
        OutcomeTellsEffect(db, c, e, now);
        assert [] + rest == rest;
      }
    }
  }
}
