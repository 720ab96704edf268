/** The commerce repository: webhook, checkout and resync transactions over stored rows, and whole runs of them. */
module CommerceStore {
  import opened Wrappers
  import opened LicenseTables
  import opened LicenseStore
  import opened Commerce
  import LR = LicenseRuns
  import CR = CommerceRuns
  import CC = CommerceConvergence

  class CommerceRepository {
    const licensing: LicenseRepository
    var subs: map<SubId, Subscription>
    var receipts: map<string, ReceiptStatus>
    var links: map<string, Id>
    var audit: seq<Audit>

    function Rows(): Store
      reads this, licensing
    {
      Store(subs, receipts, links, audit, licensing.Rows())
    }

    // Licences are sound, each event is applied once, and linked licences belong to the owners.
    ghost predicate Valid()
      reads this, licensing
    {
      licensing.Valid() && CC.AuditedOnce(Rows()) && CR.LinkedToOwner(Rows())
    }

    constructor ()
      ensures fresh(licensing) && Valid() && Rows() == EMPTY_STORE
    {
      licensing := new LicenseRepository();
      subs, receipts, links, audit := map[], map[], map[], [];
    }

    // Insert or update the projection row; an update leaves the owning customer alone.
    method UpsertSubscription(sub: SubId, existing: Option<Subscription>, customer: Id, plan: Id, change: Change,
                              eventAt: Option<Time>)
      returns (row: Subscription)
      modifies `subs
      ensures row == Projected(existing, customer, plan, change, eventAt)
      ensures subs == old(subs)[sub := row]
    {
      match existing {
        case Some(prior) =>
          row := prior.(billingCustomer := customer, plan := plan, status := change.status,
                        periodStart := change.periodStart, periodEnd := change.periodEnd,
                        cancelAtPeriodEnd := change.cancelAtPeriodEnd, eventAt := eventAt);
        case None =>
          row := Subscription(customer, customer, plan, change.status, change.periodStart, change.periodEnd,
                              change.cancelAtPeriodEnd, eventAt);
      }
      subs := subs[sub := row];
    }

    method ApplySubscriptionChange(catalog: Catalog, e: Event, change: Change, now: Time)
      returns (error: Option<ApplyError>)
      requires licensing.Valid()
      modifies this, licensing
      ensures licensing.Valid()
      ensures match ApplySubscription(old(Rows()), catalog, e, change, now)
              case Failed(reason) => error == Some(reason) && Rows() == old(Rows())
              case Applied(after) => error == None && Rows() == after
    {
      var existing := Lookup(subs, change.sub);
      if existing.Some? && IsStale(e.created, existing.value.eventAt) {
        audit := audit + [Audit(e.id, SubscriptionSkipped)];
        return None;
      }
      var customer := ResolveCustomer(Rows(), change, existing);
      if customer.None? {
        return Some(MissingCustomer);
      }
      var plan := ResolvePlan(catalog, change, existing);
      if plan.None? {
        return Some(MissingPlanVersion);
      }
      links := LinkStripeCustomer(links, customer.value, change.stripeCustomer);
      var row := UpsertSubscription(change.sub, existing, customer.value, plan.value, change, e.created);
      audit := audit + [Audit(e.id, SubscriptionChanged)];
      licensing.SyncLicenseForSubscription(row.customer, change.sub, Lookup(catalog.plans, row.plan),
                                           change.status, now);
      error := None;
    }

    method ApplyInvoiceChange(catalog: Catalog, e: Event, invoice: Invoice, now: Time)
      returns (error: Option<ApplyError>)
      requires licensing.Valid()
      modifies this, licensing
      ensures licensing.Valid()
      ensures match ApplyInvoice(old(Rows()), catalog, e, invoice, now)
              case Failed(reason) => error == Some(reason) && Rows() == old(Rows())
              case Applied(after) => error == None && Rows() == after
    {
      if invoice.sub !in subs {
        return Some(MissingSubscription);
      }
      var existing := subs[invoice.sub];
      if IsStale(e.created, existing.eventAt) {
        audit := audit + [Audit(e.id, InvoiceSkipped)];
        return None;
      }
      if existing.status.Canceled? && invoice.paid {
        audit := audit + [Audit(e.id, InvoiceRecorded)];
        return None;
      }
      var row := existing.(status := invoice.Status(), eventAt := e.created);
      subs := subs[invoice.sub := row];
      if !SameState(existing, row) {
        audit := audit + [Audit(e.id, SubscriptionChanged)];
        licensing.SyncLicenseForSubscription(row.customer, invoice.sub, Lookup(catalog.plans, row.plan),
                                             invoice.Status(), now);
      } else {
        audit := audit + [Audit(e.id, InvoiceRecorded)];
      }
      error := None;
    }

    method ApplySupportedEvent(catalog: Catalog, e: Event, now: Time) returns (error: Option<ApplyError>)
      requires licensing.Valid()
      modifies this, licensing
      ensures licensing.Valid()
      ensures match ApplyEvent(old(Rows()), catalog, e, now)
              case Failed(reason) => error == Some(reason) && Rows() == old(Rows())
              case Applied(after) => error == None && Rows() == after
    {
      match e.body
      case SubscriptionEvent(None) => error := Some(MissingSubscriptionFields);
      case SubscriptionEvent(Some(change)) => error := ApplySubscriptionChange(catalog, e, change, now);
      case InvoiceEvent(None) => error := Some(MissingInvoiceFields);
      case InvoiceEvent(Some(invoice)) => error := ApplyInvoiceChange(catalog, e, invoice, now);
      case Unsupported => error := None;
    }

    method ProcessWebhookEvent(catalog: Catalog, e: Event, now: Time) returns (outcome: WebhookOutcome)
      requires Valid()
      modifies this, licensing
      ensures Valid()
      ensures (Rows(), outcome) == ProcessWebhook(old(Rows()), catalog, e, now)
    {
      CC.StepAuditsOnce(Rows(), CR.Process(e, catalog, now));
      CR.StepKeepsOwners(Rows(), CR.Process(e, catalog, now));
      outcome := Deliver(catalog, e, now);
    }

    // Receipt first, then the event, then the mark; an error rolls all of it back.
    method Deliver(catalog: Catalog, e: Event, now: Time) returns (outcome: WebhookOutcome)
      requires licensing.Valid()
      modifies this, licensing
      ensures licensing.Valid()
      ensures (Rows(), outcome) == ProcessWebhook(old(Rows()), catalog, e, now)
    {
      var before := receipts;
      var known := e.id in receipts;
      if known {
        if !receipts[e.id].Received? || e.body.Unsupported? {
          return Duplicate(receipts[e.id]);
        }
      } else {
        receipts := receipts[e.id := if e.body.Unsupported? then Ignored else Received];
        if e.body.Unsupported? {
          return Inserted(Ignored);
        }
        CC.ReceiptsDoNotMatter(old(Rows()), catalog, e, now, receipts);
      }
      var error := ApplySupportedEvent(catalog, e, now);
      if error.Some? {
        receipts := before;
        return Rejected(error.value);
      }
      receipts := receipts[e.id := Processed];
      assert receipts == before[e.id := Processed];
      outcome := if known then Duplicate(Processed) else Inserted(Processed);
    }

    method RecordWebhookEvent(e: Event) returns (outcome: WebhookOutcome)
      requires Valid()
      modifies this
      ensures Valid()
      ensures (Rows(), outcome) == RecordWebhook(old(Rows()), e)
      ensures e.id in receipts && (outcome.Inserted? <==> e.id !in old(receipts))
      ensures Rows() == old(Rows()).(receipts := receipts)
    {
      CC.StepAuditsOnce(Rows(), CR.Record(e));
      CR.StepKeepsOwners(Rows(), CR.Record(e));
      if e.id in receipts {
        return Duplicate(receipts[e.id]);
      }
      var status := if e.body.Unsupported? then Ignored else Received;
      receipts := receipts[e.id := status];
      outcome := Inserted(status);
    }

    method ApplyAdminResync(catalog: Catalog, sub: SubId, change: Change, now: Time) returns (outcome: ResyncOutcome)
      requires Valid()
      modifies this, licensing
      ensures Valid()
      ensures (Rows(), outcome) == Resync(old(Rows()), catalog, sub, change, now)
    {
      CC.StepAuditsOnce(Rows(), CR.ResyncSub(sub, change, catalog, now));
      CR.StepKeepsOwners(Rows(), CR.ResyncSub(sub, change, catalog, now));
      if sub !in subs {
        return SubscriptionUnknown;
      }
      var existing := subs[sub];
      var customer := ResolveCustomer(Rows(), change, Some(existing));
      if customer.None? {
        return ResyncFailed(MissingCustomer);
      }
      var plan := ResolvePlan(catalog, change, Some(existing));
      if plan.None? {
        return ResyncFailed(MissingPlanVersion);
      }
      links := LinkStripeCustomer(links, customer.value, change.stripeCustomer);
      var row := UpsertSubscription(sub, Some(existing), customer.value, plan.value, change, Some(now));
      licensing.SyncLicenseForSubscription(row.customer, sub, Lookup(catalog.plans, row.plan), change.status, now);
      outcome := Resynced(!SameState(existing, row));
    }

    // What a completed checkout leaves behind: its Stripe customer belongs to the paying account.
    method CompleteCheckout(customer: Id, stripeCustomer: Option<string>)
      requires Valid()
      modifies this
      ensures Valid()
      ensures Rows() == CR.Apply(old(Rows()), CR.CompleteCheckout(customer, stripeCustomer))
    {
      CC.StepAuditsOnce(Rows(), CR.CompleteCheckout(customer, stripeCustomer));
      CR.StepKeepsOwners(Rows(), CR.CompleteCheckout(customer, stripeCustomer));
      links := LinkStripeCustomer(links, customer, stripeCustomer);
    }

    // A licensing transaction of an operator or a customer.
    method License(op: LR.Op)
      requires Valid() && !op.OpSync?
      modifies licensing
      ensures Valid()
      ensures Rows() == CR.Apply(old(Rows()), CR.Licensing(op))
    {
      CC.StepAuditsOnce(Rows(), CR.Licensing(op));
      CR.StepKeepsOwners(Rows(), CR.Licensing(op));
      Execute(licensing, op);
    }

    // The licensing part of an executed deletion.
    method Freeze(customer: Id)
      requires Valid()
      modifies licensing
      ensures Valid()
      ensures Rows() == old(Rows()).(tables := LicenseTables.Freeze(old(Rows()).tables, customer))
      ensures subs == old(subs)
    {
      FreezeIsOneStep(Rows(), customer);
      License(LR.OpFreeze(customer));
    }
  }

  lemma FreezeIsOneStep(s: Store, customer: Id)
    ensures CR.Apply(s, CR.Licensing(LR.OpFreeze(customer)))
         == s.(tables := LicenseTables.Freeze(s.tables, customer))
  {
  }

  method Perform(repository: CommerceRepository, a: CR.Action)
    requires repository.Valid()
    modifies repository, repository.licensing
    ensures repository.Valid() && repository.Rows() == CR.Apply(old(repository.Rows()), a)
  {
    match a
    case Process(e, catalog, now) => var _ := repository.ProcessWebhookEvent(catalog, e, now);
    case Record(e) => var _ := repository.RecordWebhookEvent(e);
    case ResyncSub(sub, change, catalog, now) => var _ := repository.ApplyAdminResync(catalog, sub, change, now);
    case CompleteCheckout(customer, stripeCustomer) => repository.CompleteCheckout(customer, stripeCustomer);
    case Licensing(op) => if !op.OpSync? { repository.License(op); }
  }

  // Any schedule of webhooks, checkouts, resyncs and licensing transactions through the stored tables
  // ends where the reference says, with every invariant.
  method Serve(actions: seq<CR.Action>) returns (repository: CommerceRepository)
    ensures fresh(repository) && fresh(repository.licensing) && repository.Valid()
    ensures repository.Rows() == CR.Run(actions)
  {
    repository := new CommerceRepository();
    for i := 0 to |actions|
      invariant fresh(repository) && fresh(repository.licensing) && repository.Valid()
      invariant repository.Rows() == CR.Run(actions[..i])
    {
      CR.RunStep(actions, i);
      Perform(repository, actions[i]);
    }
    assert actions[..|actions|] == actions;
  }
}
