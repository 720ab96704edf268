/**
  The Stripe projection: receipts, subscription rows with their watermark, and the licence each
  subscription is linked to. Reference functions, one per transaction.
 */
module Commerce {
  import opened Wrappers
  import opened LicenseTables
  import V = Versions

  type SubId = string

  datatype Subscription = Subscription(customer: Id, billingCustomer: Id, plan: Id, status: SubscriptionStatus,
                                       periodStart: Option<Time>, periodEnd: Option<Time>, cancelAtPeriodEnd: bool,
                                       eventAt: Option<Time>)

  datatype Change = Change(sub: SubId, stripeCustomer: Option<string>, customer: Option<Id>, plan: Option<Id>,
                           price: Option<string>, status: SubscriptionStatus, periodStart: Option<Time>,
                           periodEnd: Option<Time>, cancelAtPeriodEnd: bool)

  // An invoice event carries Active when paid and PastDue when the payment failed.
  datatype Invoice = Invoice(sub: SubId, paid: bool) {
    function Status(): SubscriptionStatus {
      if paid then Active else PastDue
    }
  }

  // None stands for an object without its required fields.
  datatype Body = SubscriptionEvent(change: Option<Change>) | InvoiceEvent(invoice: Option<Invoice>) | Unsupported

  datatype Event = Event(id: string, created: Option<Time>, body: Body)

  datatype ReceiptStatus = Received | Processed | Ignored

  // The audit row every applied event leaves behind.
  datatype AuditKind = SubscriptionChanged | SubscriptionSkipped | InvoiceSkipped | InvoiceRecorded
  datatype Audit = Audit(event: string, kind: AuditKind)

  datatype Store = Store(subs: map<SubId, Subscription>, receipts: map<string, ReceiptStatus>, links: map<string, Id>,
                         audit: seq<Audit>, tables: Tables)

  const EMPTY_STORE := Store(map[], map[], map[], [], EMPTY_TABLES)

  // Plan versions with the device limit in force now, and the active plan version of each price.
  datatype Catalog = Catalog(plans: map<Id, Plan>, prices: map<string, Id>)

  function Lookup<K, V>(m: map<K, V>, k: K): Option<V> {
    if k in m then Some(m[k]) else None
  }

  // --- Pure parts ------------------------------------------------------------------------------

  predicate IsStale(incoming: Option<Time>, existing: Option<Time>) {
    incoming.Some? && existing.Some? && incoming.value < existing.value
  }

  // Metadata first, then the existing row, then the stored Stripe link.
  function ResolveCustomer(s: Store, change: Change, existing: Option<Subscription>): Option<Id> {
    if change.customer.Some? then change.customer
    else if existing.Some? then Some(existing.value.customer)
    else if change.stripeCustomer.Some? then Lookup(s.links, change.stripeCustomer.value)
    else None
  }

  // Metadata first, then the existing row, then the active plan version of the price.
  function ResolvePlan(catalog: Catalog, change: Change, existing: Option<Subscription>): Option<Id> {
    if change.plan.Some? then change.plan
    else if existing.Some? then Some(existing.value.plan)
    else if change.price.Some? then Lookup(catalog.prices, change.price.value)
    else None
  }

  predicate Blank(s: string) {
    forall c | c in s :: V.IsSpace(c)
  }

  // The first billing account to claim a Stripe customer keeps it; blank ids are not stored.
  function LinkStripeCustomer(links: map<string, Id>, customer: Id, stripeCustomer: Option<string>): map<string, Id> {
    if stripeCustomer.None? || Blank(stripeCustomer.value) || stripeCustomer.value in links then links
    else links[stripeCustomer.value := customer]
  }

  // The row after an upsert. An update never writes the owning customer.
  function Projected(existing: Option<Subscription>, customer: Id, plan: Id, change: Change,
                     eventAt: Option<Time>): Subscription {
    Subscription(if existing.Some? then existing.value.customer else customer, customer, plan, change.status,
                 change.periodStart, change.periodEnd, change.cancelAtPeriodEnd, eventAt)
  }

  function SyncRow(s: Store, catalog: Catalog, sub: SubId, row: Subscription, now: Time): Tables {
    SyncLicense(s.tables, row.customer, sub, Lookup(catalog.plans, row.plan), row.status, now)
  }

  // --- Webhooks ----------------------------------------------------------------------------------

  datatype ApplyError =
    | MissingSubscriptionFields | MissingInvoiceFields | MissingCustomer | MissingPlanVersion | MissingSubscription

  datatype Applied = Applied(store: Store) | Failed(error: ApplyError)

  function ApplySubscription(s: Store, catalog: Catalog, e: Event, change: Change, now: Time): Applied {
    var existing := Lookup(s.subs, change.sub);
    if existing.Some? && IsStale(e.created, existing.value.eventAt) then
      Applied(s.(audit := s.audit + [Audit(e.id, SubscriptionSkipped)]))
    else
      var customer, plan := ResolveCustomer(s, change, existing), ResolvePlan(catalog, change, existing);
      if customer.None? then Failed(MissingCustomer)
      else if plan.None? then Failed(MissingPlanVersion)
      else
        var row := Projected(existing, customer.value, plan.value, change, e.created);
        Applied(s.(subs := s.subs[change.sub := row],
                   links := LinkStripeCustomer(s.links, customer.value, change.stripeCustomer),
                   audit := s.audit + [Audit(e.id, SubscriptionChanged)],
                   tables := SyncRow(s, catalog, change.sub, row, now)))
  }

  function ApplyInvoice(s: Store, catalog: Catalog, e: Event, invoice: Invoice, now: Time): Applied {
    match Lookup(s.subs, invoice.sub)
    case None => Failed(MissingSubscription)
    case Some(existing) =>
      if IsStale(e.created, existing.eventAt) then Applied(s.(audit := s.audit + [Audit(e.id, InvoiceSkipped)]))
      else if existing.status.Canceled? && invoice.Status().Active? then
        // A paid invoice never revives a canceled subscription, nor moves its watermark.
        Applied(s.(audit := s.audit + [Audit(e.id, InvoiceRecorded)]))
      else
        var row := existing.(status := invoice.Status(), eventAt := e.created);
        if row.status != existing.status then
          Applied(s.(subs := s.subs[invoice.sub := row], audit := s.audit + [Audit(e.id, SubscriptionChanged)],
                     tables := SyncRow(s, catalog, invoice.sub, row, now)))
        else
          Applied(s.(subs := s.subs[invoice.sub := row], audit := s.audit + [Audit(e.id, InvoiceRecorded)]))
  }

  function ApplyEvent(s: Store, catalog: Catalog, e: Event, now: Time): Applied {
    match e.body
    case SubscriptionEvent(None) => Failed(MissingSubscriptionFields)
    case SubscriptionEvent(Some(change)) => ApplySubscription(s, catalog, e, change, now)
    case InvoiceEvent(None) => Failed(MissingInvoiceFields)
    case InvoiceEvent(Some(invoice)) => ApplyInvoice(s, catalog, e, invoice, now)
    case Unsupported => Applied(s)
  }

  datatype WebhookOutcome = Inserted(status: ReceiptStatus) | Duplicate(status: ReceiptStatus)
      | Rejected(error: ApplyError)

  // A failed application rolls the whole transaction back, its receipt included.
  function ProcessWebhook(s: Store, catalog: Catalog, e: Event, now: Time): (Store, WebhookOutcome) {
    if e.id in s.receipts && (!s.receipts[e.id].Received? || e.body.Unsupported?) then (s, Duplicate(s.receipts[e.id]))
    else if e.body.Unsupported? then (s.(receipts := s.receipts[e.id := Ignored]), Inserted(Ignored))
    else
      match ApplyEvent(s, catalog, e, now)
      case Failed(error) => (s, Rejected(error))
      case Applied(s') =>
        (s'.(receipts := s.receipts[e.id := Processed]),
         if e.id in s.receipts then Duplicate(Processed) else Inserted(Processed))
  }

  // The receipt-only path.
  function RecordWebhook(s: Store, e: Event): (Store, WebhookOutcome) {
    if e.id in s.receipts then (s, Duplicate(s.receipts[e.id]))
    else
      var status := if e.body.Unsupported? then Ignored else Received;
      (s.(receipts := s.receipts[e.id := status]), Inserted(status))
  }

  // --- Operator resync -----------------------------------------------------------------------------

  datatype ResyncOutcome = SubscriptionUnknown | ResyncFailed(error: ApplyError) | Resynced(changed: bool)

  predicate SameState(a: Subscription, b: Subscription) {
    && a.customer == b.customer && a.plan == b.plan && a.status == b.status
    && a.periodEnd == b.periodEnd && a.cancelAtPeriodEnd == b.cancelAtPeriodEnd
  }

  // Freshly fetched truth overwrites the row and stamps it with the operator's clock.
  function Resync(s: Store, catalog: Catalog, sub: SubId, change: Change, now: Time): (Store, ResyncOutcome) {
    match Lookup(s.subs, sub)
    case None => (s, SubscriptionUnknown)
    case Some(existing) =>
      var customer, plan := ResolveCustomer(s, change, Some(existing)), ResolvePlan(catalog, change, Some(existing));
      if customer.None? then (s, ResyncFailed(MissingCustomer))
      else if plan.None? then (s, ResyncFailed(MissingPlanVersion))
      else
        var row := Projected(Some(existing), customer.value, plan.value, change, Some(now));
        (s.(subs := s.subs[sub := row],
            links := LinkStripeCustomer(s.links, customer.value, change.stripeCustomer),
            tables := SyncRow(s, catalog, sub, row, now)),
         Resynced(!SameState(existing, row)))
  }
}
