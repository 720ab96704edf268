/** What each webhook and resync leaves stored, read off the event and the rows before it. */
module CommerceOutcomes {
  import opened Wrappers
  import opened LicenseTables
  import opened Commerce
  import V = Versions

  // The customer that pays: the metadata's, or else the owner on record, or else whoever the Stripe
  // customer is linked to.
  ghost predicate Pays(s: Store, change: Change, customer: Id) {
    || change.customer == Some(customer)
    || (change.customer == None && change.sub in s.subs && s.subs[change.sub].customer == customer)
    || (change.customer == None && change.sub !in s.subs && change.stripeCustomer.Some?
        && change.stripeCustomer.value in s.links && s.links[change.stripeCustomer.value] == customer)
  }

  // The plan version bought: the metadata's, or else the one on record, or else the active one of the price.
  ghost predicate Buys(s: Store, catalog: Catalog, change: Change, plan: Id) {
    || change.plan == Some(plan)
    || (change.plan == None && change.sub in s.subs && s.subs[change.sub].plan == plan)
    || (change.plan == None && change.sub !in s.subs && change.price.Some?
        && change.price.value in catalog.prices && catalog.prices[change.price.value] == plan)
  }

  // The row says what the change says, under its first owner.
  ghost predicate Takes(s: Store, catalog: Catalog, change: Change, row: Subscription) {
    && Pays(s, change, row.billingCustomer) && Buys(s, catalog, change, row.plan)
    && row.customer == (if change.sub in s.subs then s.subs[change.sub].customer else row.billingCustomer)
    && row.status == change.status && row.cancelAtPeriodEnd == change.cancelAtPeriodEnd
    && row.periodStart == change.periodStart && row.periodEnd == change.periodEnd
  }

  // The licence follows the stored row, if its plan version is on record.
  predicate Synced(s: Store, s': Store, catalog: Catalog, sub: SubId, now: Time) {
    && sub in s'.subs
    && var row := s'.subs[sub];
    && (row.plan !in catalog.plans ==> s'.tables == s.tables)
    && (row.plan in catalog.plans ==>
          s'.tables == SyncLicense(s.tables, row.customer, sub, Some(catalog.plans[row.plan]), row.status, now))
  }

  // A Stripe customer nobody has claimed, and not blank, is linked to the customer that pays.
  predicate Links(s: Store, s': Store, change: Change, customer: Id) {
    var named := change.stripeCustomer;
    if named.Some? && named.value !in s.links && exists c | c in named.value :: !V.IsSpace(c)
    then s'.links == s.links[named.value := customer]
    else s'.links == s.links
  }

  predicate OnlyRow(s: Store, s': Store, sub: SubId) {
    sub in s'.subs && s'.subs == s.subs[sub := s'.subs[sub]]
  }

  // Dated before the row it is about.
  predicate Late(s: Store, created: Option<Time>, sub: SubId) {
    && created.Some? && sub in s.subs && s.subs[sub].eventAt.Some?
    && created.value < s.subs[sub].eventAt.value
  }

  // A late event is on record as skipped; one without a customer, or else without a plan version, is
  // refused; any other stores its row, links, audits and syncs.
  lemma SubscriptionEventMeans(s: Store, catalog: Catalog, e: Event, change: Change, now: Time)
    ensures var applied := ApplySubscription(s, catalog, e, change, now);
            var late := Late(s, e.created, change.sub);
            && (applied == Failed(MissingCustomer) <==> !late && forall c :: !Pays(s, change, c))
            && (applied == Failed(MissingPlanVersion) <==>
                  !late && (exists c :: Pays(s, change, c)) && forall p :: !Buys(s, catalog, change, p))
            && (applied.Failed? ==> applied.error.MissingCustomer? || applied.error.MissingPlanVersion?)
            && (late ==> applied == Applied(s.(audit := s.audit + [Audit(e.id, SubscriptionSkipped)])))
            && (applied.Applied? && !late ==>
                  var s' := applied.store;
                  && OnlyRow(s, s', change.sub) && Takes(s, catalog, change, s'.subs[change.sub])
                  && s'.subs[change.sub].eventAt == e.created
                  && Links(s, s', change, s'.subs[change.sub].billingCustomer)
                  && Synced(s, s', catalog, change.sub, now)
                  && s'.audit == s.audit + [Audit(e.id, SubscriptionChanged)] && s'.receipts == s.receipts)
  {
    var existing := Lookup(s.subs, change.sub);
    var customer, plan := ResolveCustomer(s, change, existing), ResolvePlan(catalog, change, existing);
    if customer.Some? { assert Pays(s, change, customer.value); }
    if plan.Some? { assert Buys(s, catalog, change, plan.value); }
  }

  // A failed payment makes the row past due and a paid one makes it active, unless it is canceled; the
  // rest of the row stays, and the licence is synced exactly when the status moved.
  lemma InvoiceEventMeans(s: Store, catalog: Catalog, e: Event, invoice: Invoice, now: Time)
    ensures var applied := ApplyInvoice(s, catalog, e, invoice, now);
            && (applied.Failed? <==> invoice.sub !in s.subs)
            && (applied.Failed? ==> applied.error.MissingSubscription?)
            && (invoice.sub in s.subs ==>
                  var s', row := applied.store, s.subs[invoice.sub];
                  if Late(s, e.created, invoice.sub) then
                    s' == s.(audit := s.audit + [Audit(e.id, InvoiceSkipped)])
                  else if row.status.Canceled? && invoice.paid then
                    s' == s.(audit := s.audit + [Audit(e.id, InvoiceRecorded)])
                  else
                    && OnlyRow(s, s', invoice.sub)
                    && s'.subs[invoice.sub]
                       == row.(status := if invoice.paid then Active else PastDue, eventAt := e.created)
                    && s'.links == s.links && s'.receipts == s.receipts
                    && var moved := s'.subs[invoice.sub].status != row.status;
                    && (moved ==> Synced(s, s', catalog, invoice.sub, now)) && (!moved ==> s'.tables == s.tables)
                    && s'.audit == s.audit + [Audit(e.id, if moved then SubscriptionChanged else InvoiceRecorded)])
  {
  }

  // A resync stores the fetched truth, whatever the row's watermark, under the operator's clock, and
  // says whether anything an operator would see has changed. A row on record always has a customer and
  // a plan version, so nothing but an unknown subscription is refused.
  lemma ResyncMeans(s: Store, catalog: Catalog, sub: SubId, change: Change, now: Time)
    ensures var (s', outcome) := Resync(s, catalog, sub, change, now);
            var fetched := change.(sub := sub);
            && (outcome.SubscriptionUnknown? <==> sub !in s.subs) && !outcome.ResyncFailed?
            && (sub !in s.subs ==> s' == s)
            && (sub in s.subs ==>
                  && OnlyRow(s, s', sub) && Takes(s, catalog, fetched, s'.subs[sub])
                  && s'.subs[sub].eventAt == Some(now)
                  && Links(s, s', fetched, s'.subs[sub].billingCustomer) && Synced(s, s', catalog, sub, now)
                  && s'.audit == s.audit && s'.receipts == s.receipts
                  && var row, row' := s.subs[sub], s'.subs[sub];
                  && (outcome == Resynced(false) <==>
                        row.plan == row'.plan && row.status == row'.status && row.periodEnd == row'.periodEnd
                        && row.cancelAtPeriodEnd == row'.cancelAtPeriodEnd))
  {
  }

  // An event is applied when its id is new, or was recorded and not yet processed; it then ends
  // processed, and what it cannot apply leaves nothing behind. Unsupported ones are recorded as ignored.
  lemma WebhookMeans(s: Store, catalog: Catalog, e: Event, now: Time)
    ensures var (s', outcome) := ProcessWebhook(s, catalog, e, now);
            var prior, applied := Lookup(s.receipts, e.id), ApplyEvent(s, catalog, e, now);
            var tried := !e.body.Unsupported? && (prior.None? || prior == Some(Received));
            && (tried && applied.Applied? ==> s' == applied.store.(receipts := s.receipts[e.id := Processed]))
            && (outcome.Rejected? <==> tried && applied.Failed?)
            && (outcome.Rejected? ==> outcome.error == applied.error && s' == s)
            && (outcome.Duplicate? <==> prior.Some? && !outcome.Rejected?)
            && (outcome.Inserted? <==> prior.None? && !outcome.Rejected?)
            && (!outcome.Rejected? ==> Lookup(s'.receipts, e.id) == Some(outcome.status))
            && (!outcome.Rejected? ==>
                  outcome.status == if tried then Processed else if prior.Some? then prior.value else Ignored)
            && (!tried ==> s' == s.(receipts := s'.receipts) && (prior.Some? ==> s' == s))
            && (forall id | id != e.id :: Lookup(s'.receipts, id) == Lookup(s.receipts, id))
  {
  }

  // Objects without their required fields are refused as such.
  lemma MalformedEvents(s: Store, catalog: Catalog, e: Event, now: Time)
    ensures ApplyEvent(s, catalog, e, now) == Failed(MissingSubscriptionFields) <==> e.body == SubscriptionEvent(None)
    ensures ApplyEvent(s, catalog, e, now) == Failed(MissingInvoiceFields) <==> e.body == InvoiceEvent(None)
  {
  }
}
