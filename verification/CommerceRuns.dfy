/**
  Whole runs of webhooks, resyncs and licensing transactions in any order: the licence a
  subscription is linked to keeps agreeing with it, and each event is applied once.
 */
module CommerceRuns {
  import opened Wrappers
  import opened LicenseTables
  import opened LicenseRuns
  import opened Commerce

  datatype Action =
    | Process(event: Event, catalog: Catalog, now: Time)
    | Record(event: Event)
    | ResyncSub(sub: SubId, change: Change, catalog: Catalog, now: Time)
    | CompleteCheckout(customer: Id, stripeCustomer: Option<string>)   // the link a completed checkout leaves
    | Licensing(op: Op)   // any operator, customer or deletion transaction on the licensing tables

  // Subscription syncs happen inside webhooks and resyncs only.
  function Apply(s: Store, a: Action): Store {
    match a
    case Process(e, catalog, now) => ProcessWebhook(s, catalog, e, now).0
    case Record(e) => RecordWebhook(s, e).0
    case ResyncSub(sub, change, catalog, now) => Resync(s, catalog, sub, change, now).0
    case CompleteCheckout(customer, stripeCustomer) =>
      s.(links := LinkStripeCustomer(s.links, customer, stripeCustomer))
    case Licensing(op) => if op.OpSync? then s else s.(tables := Perform(s.tables, op))
  }

  function Run(actions: seq<Action>): Store {
    if actions == [] then EMPTY_STORE
    else Apply(Run(actions[..|actions| - 1]), actions[|actions| - 1])
  }

  lemma RunStep(actions: seq<Action>, n: nat)
    requires n < |actions|
    ensures Run(actions[..n + 1]) == Apply(Run(actions[..n]), actions[n])
  {
    assert actions[..n + 1][..n] == actions[..n];
  }

  // --- Every run is also a run of licensing transactions ------------------------------------------

  function SyncOp(catalog: Catalog, sub: SubId, row: Subscription, now: Time): Op {
    OpSync(row.customer, sub, Lookup(catalog.plans, row.plan), row.status, now)
  }

  // The licence sync an event brings about when it is applied, if any.
  function EventOp(s: Store, catalog: Catalog, e: Event, now: Time): Option<Op> {
    match e.body
    case SubscriptionEvent(Some(change)) =>
      var existing := Lookup(s.subs, change.sub);
      var customer, plan := ResolveCustomer(s, change, existing), ResolvePlan(catalog, change, existing);
      if (existing.Some? && IsStale(e.created, existing.value.eventAt)) || customer.None? || plan.None? then None
      else Some(SyncOp(catalog, change.sub, Projected(existing, customer.value, plan.value, change, e.created), now))
    case InvoiceEvent(Some(invoice)) =>
      (match Lookup(s.subs, invoice.sub)
       case None => None
       case Some(existing) =>
         if IsStale(e.created, existing.eventAt) || (existing.status.Canceled? && invoice.paid)
            || existing.status == invoice.Status() then None
         else Some(SyncOp(catalog, invoice.sub, existing.(status := invoice.Status(), eventAt := e.created), now)))
    case _ => None
  }

  // The licensing transaction a step carries out, if any.
  function OpOf(s: Store, a: Action): Option<Op> {
    match a
    case Process(e, catalog, now) =>
      if e.id in s.receipts && !s.receipts[e.id].Received? then None else EventOp(s, catalog, e, now)
    case ResyncSub(sub, change, catalog, now) =>
      (match Lookup(s.subs, sub)
       case None => None
       case Some(existing) =>
         var customer, plan := ResolveCustomer(s, change, Some(existing)), ResolvePlan(catalog, change, Some(existing));
         if customer.None? || plan.None? then None
         else Some(SyncOp(catalog, sub, Projected(Some(existing), customer.value, plan.value, change, Some(now)), now)))
    case Licensing(op) => if op.OpSync? then None else Some(op)
    case _ => None
  }

  function Performed(t: Tables, op: Option<Op>): Tables {
    if op.Some? then Perform(t, op.value) else t
  }

  lemma StepIsOneOp(s: Store, a: Action)
    ensures Apply(s, a).tables == Performed(s.tables, OpOf(s, a))
  {
  }

  // What a webhook or resync syncs is the row it leaves stored.
  lemma SyncsStoredRow(s: Store, a: Action)
    requires OpOf(s, a).Some? && !a.Licensing?
    ensures var op := OpOf(s, a).value;
            && op.OpSync? && op.sub in Apply(s, a).subs && (a.Process? || a.ResyncSub?)
            && op == SyncOp(a.catalog, op.sub, Apply(s, a).subs[op.sub], a.now)
  {
  }

  // The licensing transactions of the later part of a run, in order.
  function OpsOf(earlier: seq<Action>, later: seq<Action>): seq<Op> {
    if later == [] then []
    else
      var n := |later| - 1;
      var op := OpOf(Run(earlier + later[..n]), later[n]);
      OpsOf(earlier, later[..n]) + (if op.Some? then [op.value] else [])
  }

  lemma OneOp(t: Tables, op: Op)
    ensures RunOps(t, [op]) == Perform(t, op)
  {
    assert [op][..0] == [];
  }

  // Whatever webhooks, resyncs and transactions run between two points, the licensing tables
  // move by those licensing transactions alone, so everything proved of them holds here too.
  lemma {:induction false} LicensingTrace(earlier: seq<Action>, later: seq<Action>)
    ensures Run(earlier + later).tables == RunOps(Run(earlier).tables, OpsOf(earlier, later))
  {
    if later == [] {
      assert earlier + later == earlier;
    } else {
      var n := |later| - 1;
      assert (earlier + later)[..|earlier + later| - 1] == earlier + later[..n];
      LicensingTrace(earlier, later[..n]);
      var s, ops := Run(earlier + later[..n]), OpsOf(earlier, later[..n]);
      StepIsOneOp(s, later[n]);
      var op := OpOf(s, later[n]);
      if op.Some? {
        RunOpsAppend(Run(earlier).tables, ops, [op.value]);
        OneOp(s.tables, op.value);
      } else {
        assert ops + [] == ops;
      }
    }
  }

  lemma EveryRunIsSoundlyLicensed(actions: seq<Action>)
    ensures Sound(Run(actions).tables)
  {
    LicensingTrace([], actions);
    assert [] + actions == actions;
    EveryRunIsSound(OpsOf([], actions));
  }

  // --- Licence and subscription agree ----------------------------------------------------------------

  predicate Fits(sub: SubscriptionStatus, license: LicenseStatus) {
    match license
    case LicenseActive => sub.Active? || sub.Trialing? || sub.PastDue?
    case LicenseSuspended => !sub.GrantsCloud() && !sub.Canceled?
    case LicenseExpired => !sub.GrantsCloud()
    case LicenseRevoked => true
  }

  ghost predicate HasLinked(ls: seq<License>, sub: SubId) {
    exists i :: 0 <= i < |ls| && ls[i].subscription == Some(sub)
  }

  // A linked licence belongs to its subscription's owner.
  ghost predicate LinkedToOwner(s: Store) {
    var ls := s.tables.licenses;
    forall i | 0 <= i < |ls| && ls[i].subscription.Some? ::
      ls[i].subscription.value in s.subs && s.subs[ls[i].subscription.value].customer == ls[i].customer
  }

  // The licence linked to `x` fits the subscription's status, and exists if that grants cloud.
  ghost predicate AgreesOn(s: Store, x: SubId) {
    var ls := s.tables.licenses;
    x in s.subs ==>
      && (forall i | 0 <= i < |ls| && ls[i].subscription == Some(x) :: Fits(s.subs[x].status, ls[i].status))
      && (s.subs[x].status.GrantsCloud() ==> HasLinked(ls, x))
  }

  // After a sync every licence linked to the pair fits, one exists if cloud is granted, and the
  // other licences are untouched.
  lemma SyncFits(t: Tables, customer: Id, sub: SubId, plan: Plan, status: SubscriptionStatus, now: Time)
    requires OneLinked(t.licenses)
    ensures var ls, ls' := t.licenses, SyncLicense(t, customer, sub, Some(plan), status, now).licenses;
            && SameIdentity(ls, ls') && |ls'| <= |ls| + 1
            && (forall i | 0 <= i < |ls'| && ls'[i].LinkedTo(customer, sub) :: Fits(status, ls'[i].status))
            && (forall i | 0 <= i < |ls| && !ls[i].LinkedTo(customer, sub) :: ls'[i] == ls[i])
            && (forall i | |ls| <= i < |ls'| :: ls'[i].LinkedTo(customer, sub))
            && (status.GrantsCloud() ==> HasLinked(ls', sub))
  {
    var ls, ls' := t.licenses, SyncLicense(t, customer, sub, Some(plan), status, now).licenses;
    var found := FindLinked(ls, customer, sub);
    if found.Some? {
      assert forall i | 0 <= i < |ls| && ls[i].LinkedTo(customer, sub) :: i == found.value;
      assert ls'[found.value].subscription == Some(sub);
    } else if status.GrantsCloud() {
      assert ls'[|ls|].subscription == Some(sub);
    }
  }

  lemma HasLinkedGrows(ls: seq<License>, ls': seq<License>, sub: SubId)
    requires SameIdentity(ls, ls') && HasLinked(ls, sub)
    ensures HasLinked(ls', sub)
  {
    var i :| 0 <= i < |ls| && ls[i].subscription == Some(sub);
    assert ls'[i].subscription == Some(sub);
  }

  function LinkedStatus(ls: seq<License>, customer: Id, x: SubId): Option<LicenseStatus> {
    var linked := FindLinked(ls, customer, x);
    if linked.Some? then Some(ls[linked.value].status) else None
  }

  // A sync of the row would leave the licences alone but for their limit.
  predicate NothingToSync(ls: seq<License>, x: SubId, row: Subscription) {
    LicenseSyncAction(LinkedStatus(ls, row.customer, x), row.status).None?
  }

  // Agreement is what a sync has nothing to add to.
  lemma AgreesIffNothingToSync(s: Store, x: SubId)
    requires OneLinked(s.tables.licenses) && LinkedToOwner(s) && x in s.subs
    ensures AgreesOn(s, x) <==> NothingToSync(s.tables.licenses, x, s.subs[x])
  {
    var ls, row := s.tables.licenses, s.subs[x];
    var found := FindLinked(ls, row.customer, x);
    if found.Some? {
      assert ls[found.value].subscription == Some(x);
      assert forall i | 0 <= i < |ls| && ls[i].subscription == Some(x) :: ls[i].LinkedTo(row.customer, x);
      assert forall i | 0 <= i < |ls| && ls[i].LinkedTo(row.customer, x) :: i == found.value;
    } else {
      assert forall i | 0 <= i < |ls| && ls[i].subscription == Some(x) :: ls[i].LinkedTo(row.customer, x);
    }
  }

  // Storing a row and syncing its licence: on a known plan version the pair agrees, whatever was
  // before; on an unknown one the licences stay. Other subscriptions keep what they have.
  lemma SyncAgrees(s: Store, catalog: Catalog, sub: SubId, row: Subscription, now: Time)
    requires OneLinked(s.tables.licenses) && LinkedToOwner(s)
    requires sub in s.subs ==> s.subs[sub].customer == row.customer
    ensures var s' := s.(subs := s.subs[sub := row], tables := SyncRow(s, catalog, sub, row, now));
            && LinkedToOwner(s')
            && (row.plan in catalog.plans ==> AgreesOn(s', sub))
            && (row.plan !in catalog.plans ==> s'.tables == s.tables)
            && forall x | x != sub && AgreesOn(s, x) :: AgreesOn(s', x)
  {
    if row.plan in catalog.plans {
      SyncFits(s.tables, row.customer, sub, catalog.plans[row.plan], row.status, now);
    }
    var ls, ls' := s.tables.licenses, SyncRow(s, catalog, sub, row, now).licenses;
    forall other | HasLinked(ls, other) ensures HasLinked(ls', other) {
      HasLinkedGrows(ls, ls', other);
    }
  }

  lemma LicensingKeepsAgreement(s: Store, op: Op)
    requires LinkedToOwner(s) && !op.OpSync?
    ensures var s' := s.(tables := Perform(s.tables, op));
            LinkedToOwner(s') && forall x | AgreesOn(s, x) :: AgreesOn(s', x)
  {
    var s' := s.(tables := Perform(s.tables, op));
    var ls, ls' := s.tables.licenses, s'.tables.licenses;
    assert SameIdentity(ls, ls');
    assert forall i | 0 <= i < |ls| :: ls'[i].status == ls[i].status || ls'[i].status.LicenseRevoked?;
    assert forall i | |ls| <= i < |ls'| :: ls'[i].subscription.None?;
    forall sub | HasLinked(ls, sub) ensures HasLinked(ls', sub) {
      HasLinkedGrows(ls, ls', sub);
    }
  }

  // The step creates or changes the row of `x`.
  predicate Stores(s: Store, a: Action, x: SubId) {
    x in Apply(s, a).subs && Lookup(s.subs, x) != Some(Apply(s, a).subs[x])
  }

  // The step's catalogue has the plan version of the row it writes for `x`.
  predicate WritesKnown(s: Store, a: Action, x: SubId) {
    Stores(s, a, x) ==>
      match a
      case Process(_, catalog, _) => Apply(s, a).subs[x].plan in catalog.plans
      case ResyncSub(_, _, catalog, _) => Apply(s, a).subs[x].plan in catalog.plans
      case _ => true
  }

  // Or a sync of that row would have had nothing to do.
  predicate InStep(s: Store, a: Action, x: SubId) {
    WritesKnown(s, a, x) || NothingToSync(s.tables.licenses, x, Apply(s, a).subs[x])
  }

  // How one event, or one resync, leaves agreement on a subscription that agreed.
  ghost predicate KeptExactly(s: Store, a: Action, x: SubId) {
    LinkedToOwner(Apply(s, a)) && (AgreesOn(s, x) ==> (AgreesOn(Apply(s, a), x) <==> InStep(s, a, x)))
  }

  // A webhook or resync that stores a row and syncs it.
  lemma StoredRowKeeps(s: Store, a: Action, sub: SubId, x: SubId)
    requires OneLinked(s.tables.licenses) && LinkedToOwner(s)
    requires (a.Process? || a.ResyncSub?) && sub in Apply(s, a).subs
    requires var row := Apply(s, a).subs[sub];
             && Apply(s, a).subs == s.subs[sub := row]
             && Apply(s, a).tables == SyncRow(s, a.catalog, sub, row, a.now)
             && (sub in s.subs ==> s.subs[sub].customer == row.customer)
    ensures KeptExactly(s, a, x)
  {
    SyncAgrees(s, a.catalog, sub, Apply(s, a).subs[sub], a.now);
    var s' := s.(subs := Apply(s, a).subs, tables := Apply(s, a).tables);
    AgreementReads(s', Apply(s, a), x);
    if x == sub {
      UnknownPlanKeeps(s, a, sub);
    }
  }

  // Only subscriptions and licences matter.
  lemma AgreementReads(s: Store, s': Store, x: SubId)
    requires s'.subs == s.subs && s'.tables == s.tables
    ensures LinkedToOwner(s') <==> LinkedToOwner(s)
    ensures AgreesOn(s', x) <==> AgreesOn(s, x)
  {
  }

  lemma SubscriptionEventKeeps(s: Store, catalog: Catalog, e: Event, change: Change, now: Time, x: SubId)
    requires OneLinked(s.tables.licenses) && LinkedToOwner(s)
    requires e.body == SubscriptionEvent(Some(change))
    ensures KeptExactly(s, Process(e, catalog, now), x)
  {
    var a := Process(e, catalog, now);
    if OpOf(s, a).Some? {
      StoredRowKeeps(s, a, change.sub, x);
    } else {
      AgreementReads(s, Apply(s, a), x);
    }
  }

  // A row that changes only its watermark changes no agreement.
  lemma StampKeepsAgreement(s: Store, s': Store, sub: SubId, x: SubId)
    requires LinkedToOwner(s) && s'.tables == s.tables && sub in s.subs && sub in s'.subs
    requires s'.subs == s.subs[sub := s'.subs[sub]] && s'.subs[sub].customer == s.subs[sub].customer
    requires s'.subs[sub].status == s.subs[sub].status
    ensures LinkedToOwner(s') && (AgreesOn(s', x) <==> AgreesOn(s, x))
  {
  }

  lemma InvoiceEventKeeps(s: Store, catalog: Catalog, e: Event, invoice: Invoice, now: Time, x: SubId)
    requires OneLinked(s.tables.licenses) && LinkedToOwner(s)
    requires e.body == InvoiceEvent(Some(invoice))
    ensures KeptExactly(s, Process(e, catalog, now), x)
  {
    var a := Process(e, catalog, now);
    var s' := Apply(s, a);
    if invoice.sub in s.subs {
      if s'.subs[invoice.sub].status == s.subs[invoice.sub].status {
        StampKeepsAgreement(s, s', invoice.sub, x);
        if x in s'.subs { AgreesIffNothingToSync(s', x); }
      } else {
        InvoiceChangeKeeps(s, catalog, e, invoice, now, x);
      }
    }
  }

  lemma InvoiceChangeKeeps(s: Store, catalog: Catalog, e: Event, invoice: Invoice, now: Time, x: SubId)
    requires OneLinked(s.tables.licenses) && LinkedToOwner(s)
    requires e.body == InvoiceEvent(Some(invoice)) && invoice.sub in s.subs
    requires Apply(s, Process(e, catalog, now)).subs[invoice.sub].status != s.subs[invoice.sub].status
    ensures KeptExactly(s, Process(e, catalog, now), x)
  {
    StoredRowKeeps(s, Process(e, catalog, now), invoice.sub, x);
  }

  lemma ResyncKeeps(s: Store, sub: SubId, change: Change, catalog: Catalog, now: Time, x: SubId)
    requires OneLinked(s.tables.licenses) && LinkedToOwner(s)
    ensures KeptExactly(s, ResyncSub(sub, change, catalog, now), x)
  {
    var a := ResyncSub(sub, change, catalog, now);
    if OpOf(s, a).Some? {
      StoredRowKeeps(s, a, sub, x);
    } else {
      AgreementReads(s, Apply(s, a), x);
    }
  }

  // Where the licences stay, agreement is left to whether they fit the new row as they are.
  lemma UnknownPlanKeeps(s: Store, a: Action, x: SubId)
    requires OneLinked(s.tables.licenses) && x in Apply(s, a).subs
    ensures LinkedToOwner(Apply(s, a)) && Apply(s, a).tables == s.tables ==>
              (AgreesOn(Apply(s, a), x) <==> NothingToSync(s.tables.licenses, x, Apply(s, a).subs[x]))
  {
    if LinkedToOwner(Apply(s, a)) && Apply(s, a).tables == s.tables { AgreesIffNothingToSync(Apply(s, a), x); }
  }

  // A step keeps agreement on `x` if and only if it writes the row on a plan version its catalogue
  // has, or writes one the linked licence already fits, or writes none.
  lemma StepKeepsAgreement(s: Store, a: Action, x: SubId)
    requires OneLinked(s.tables.licenses) && LinkedToOwner(s)
    ensures KeptExactly(s, a, x)
  {
    match a
    case Process(e, catalog, now) =>
      match e.body {
        case SubscriptionEvent(Some(change)) => SubscriptionEventKeeps(s, catalog, e, change, now, x);
        case InvoiceEvent(Some(invoice)) => InvoiceEventKeeps(s, catalog, e, invoice, now, x);
        case _ =>
      }
    case ResyncSub(sub, change, catalog, now) => ResyncKeeps(s, sub, change, catalog, now, x);
    case Licensing(op) => if !op.OpSync? { LicensingKeepsAgreement(s, op); }
    case _ =>
  }

  lemma StepKeepsOwners(s: Store, a: Action)
    requires OneLinked(s.tables.licenses) && LinkedToOwner(s)
    ensures LinkedToOwner(Apply(s, a))
  {
    StepKeepsAgreement(s, a, "");
  }

  lemma {:induction false} EveryRunKeepsOwners(actions: seq<Action>)
    ensures LinkedToOwner(Run(actions))
  {
    if actions != [] {
      var n := |actions| - 1;
      EveryRunKeepsOwners(actions[..n]);
      EveryRunIsSoundlyLicensed(actions[..n]);
      StepKeepsOwners(Run(actions[..n]), actions[n]);
    }
  }

  // From the start to the end of the later part the two agree on `x`.
  ghost predicate AlwaysAgrees(earlier: seq<Action>, later: seq<Action>, x: SubId) {
    AgreesOn(Run(earlier + later), x) && (later == [] || AlwaysAgrees(earlier, later[..|later| - 1], x))
  }

  predicate AlwaysInStep(earlier: seq<Action>, later: seq<Action>, x: SubId) {
    later == []
    || (AlwaysInStep(earlier, later[..|later| - 1], x)
        && InStep(Run(earlier + later[..|later| - 1]), later[|later| - 1], x))
  }

  // From any point where licence and subscription agree they go on agreeing if and only if every step
  // is in step.
  lemma {:induction false} AgreesIffInStep(earlier: seq<Action>, later: seq<Action>, x: SubId)
    requires AgreesOn(Run(earlier), x)
    ensures AlwaysAgrees(earlier, later, x) <==> AlwaysInStep(earlier, later, x)
  {
    if later == [] {
      assert earlier + later == earlier;
    } else {
      var n := |later| - 1;
      AgreesIffInStep(earlier, later[..n], x);
      assert (earlier + later)[..|earlier + later| - 1] == earlier + later[..n];
      var s := Run(earlier + later[..n]);
      EveryRunKeepsOwners(earlier + later[..n]);
      EveryRunIsSoundlyLicensed(earlier + later[..n]);
      StepKeepsAgreement(s, later[n], x);
      if AlwaysAgrees(earlier, later[..n], x) { AlwaysAgreesNow(earlier, later[..n], x); }
    }
  }

  lemma AlwaysAgreesNow(earlier: seq<Action>, later: seq<Action>, x: SubId)
    requires AlwaysAgrees(earlier, later, x)
    ensures AgreesOn(Run(earlier + later), x)
  {
  }

  ghost predicate AllWritesKnown(actions: seq<Action>, x: SubId) {
    forall i | 0 <= i < |actions| :: WritesKnown(Run(actions[..i]), actions[i], x)
  }

  lemma KnownPrefix(actions: seq<Action>, n: nat, x: SubId)
    requires AllWritesKnown(actions, x) && n <= |actions|
    ensures AllWritesKnown(actions[..n], x)
  {
    forall i | 0 <= i < n ensures WritesKnown(Run(actions[..n][..i]), actions[..n][i], x) {
      assert actions[..n][..i] == actions[..i];
    }
  }

  // In every run whose writes of `x` are on plan versions that exist at the write, licence and
  // subscription agree, whatever the catalogues are like at other steps.
  lemma {:induction false} EveryRunAgreesOn(actions: seq<Action>, x: SubId)
    requires AllWritesKnown(actions, x)
    ensures AgreesOn(Run(actions), x)
  {
    if actions != [] {
      var n := |actions| - 1;
      KnownPrefix(actions, n, x);
      EveryRunAgreesOn(actions[..n], x);
      EveryRunKeepsOwners(actions[..n]);
      EveryRunIsSoundlyLicensed(actions[..n]);
      StepKeepsAgreement(Run(actions[..n]), actions[n], x);
    }
  }

  // A first subscription event on a plan version its catalogue lacks leaves an active subscription
  // without a licence.
  lemma UnknownPlanBreaksAgreement()
    ensures var change := Change("sub", None, Some(1), Some(0), None, Active, None, None, false);
            var a := Process(Event("e", Some(1), SubscriptionEvent(Some(change))), Catalog(map[], map[]), 1);
            !AgreesOn(Apply(EMPTY_STORE, a), "sub") && !InStep(EMPTY_STORE, a, "sub")
  {
    var change := Change("sub", None, Some(1), Some(0), None, Active, None, None, false);
    var a := Process(Event("e", Some(1), SubscriptionEvent(Some(change))), Catalog(map[], map[]), 1);
    StepKeepsAgreement(EMPTY_STORE, a, "sub");
    assert Apply(EMPTY_STORE, a).tables == EMPTY_TABLES;
    assert Apply(EMPTY_STORE, a).subs["sub"].status == Active;
  }

  // At most one licence is linked to a subscription, and it carries an expiry exactly when expired.
  lemma LinkedLicenseIsUnique(actions: seq<Action>, i: nat, j: nat)
    requires i < |Run(actions).tables.licenses| && j < |Run(actions).tables.licenses|
    requires Run(actions).tables.licenses[i].subscription.Some?
    requires Run(actions).tables.licenses[i].subscription == Run(actions).tables.licenses[j].subscription
    ensures i == j
    ensures var row := Run(actions).tables.licenses[i];
            !row.status.LicenseRevoked? ==> (row.expiresAt.Some? <==> row.status.LicenseExpired?)
  {
    EveryRunKeepsOwners(actions);
    EveryRunIsSoundlyLicensed(actions);
  }

  // --- Stripe customers keep their accounts -----------------------------------------------------------

  lemma StepKeepsLinks(s: Store, a: Action, stripeCustomer: string)
    requires stripeCustomer in s.links
    ensures Lookup(Apply(s, a).links, stripeCustomer) == Some(s.links[stripeCustomer])
  {
  }

  // Whoever first claims a Stripe customer, by checkout or webhook, keeps it for good.
  lemma {:induction false} LinksAreForGood(earlier: seq<Action>, later: seq<Action>, stripeCustomer: string)
    requires stripeCustomer in Run(earlier).links
    ensures Lookup(Run(earlier + later).links, stripeCustomer) == Some(Run(earlier).links[stripeCustomer])
  {
    if later == [] {
      assert earlier + later == earlier;
    } else {
      var n := |later| - 1;
      assert (earlier + later)[..|earlier + later| - 1] == earlier + later[..n];
      LinksAreForGood(earlier, later[..n], stripeCustomer);
      StepKeepsLinks(Run(earlier + later[..n]), later[n], stripeCustomer);
    }
  }
}
