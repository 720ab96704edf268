/** Webhooks arrive late, twice and out of order: what the projection makes of them in the end. */
module CommerceConvergence {
  import opened Wrappers
  import opened LicenseTables
  import opened Commerce
  import opened CommerceRuns

  // --- Each event is applied once ------------------------------------------------------------------

  ghost predicate AuditedOnce(s: Store) {
    && (forall i, j | 0 <= i < j < |s.audit| :: s.audit[i].event != s.audit[j].event)
    && (forall i | 0 <= i < |s.audit| :: Lookup(s.receipts, s.audit[i].event) == Some(Processed))
    && (forall id | Lookup(s.receipts, id) == Some(Processed) ::
          exists i :: 0 <= i < |s.audit| && s.audit[i].event == id)
  }

  // An application writes exactly one audit row, for its own event.
  lemma ApplicationAuditsItself(s: Store, catalog: Catalog, e: Event, now: Time)
    requires !e.body.Unsupported?
    ensures var applied := ApplyEvent(s, catalog, e, now);
            applied.Applied? ==> exists kind :: applied.store.audit == s.audit + [Audit(e.id, kind)]
  {
  }

  // One application more: its receipt was not processed before, and its audit row is the only news.
  lemma AuditGrowth(s: Store, s': Store, id: string, kind: AuditKind)
    requires AuditedOnce(s) && Lookup(s.receipts, id) != Some(Processed)
    requires s'.audit == s.audit + [Audit(id, kind)] && s'.receipts == s.receipts[id := Processed]
    ensures AuditedOnce(s')
  {
    forall other | Lookup(s'.receipts, other) == Some(Processed)
      ensures exists i :: 0 <= i < |s'.audit| && s'.audit[i].event == other
    {
      if other == id {
        assert s'.audit[|s.audit|].event == other;
      } else {
        assert Lookup(s.receipts, other) == Some(Processed);
        var i :| 0 <= i < |s.audit| && s.audit[i].event == other;
        assert s'.audit[i].event == other;
      }
    }
  }

  lemma AuditUnchanged(s: Store, s': Store)
    requires AuditedOnce(s) && s'.audit == s.audit
    requires forall id :: Lookup(s'.receipts, id) == Some(Processed) <==> Lookup(s.receipts, id) == Some(Processed)
    ensures AuditedOnce(s')
  {
  }

  lemma StepAuditsOnce(s: Store, a: Action)
    requires AuditedOnce(s)
    ensures AuditedOnce(Apply(s, a))
  {
    var s' := Apply(s, a);
    if a.Process? && !a.event.body.Unsupported? { ApplicationAuditsItself(s, a.catalog, a.event, a.now); }
    if s'.audit == s.audit {
      AuditUnchanged(s, s');
    } else {
      var kind :| s'.audit == s.audit + [Audit(a.event.id, kind)];
      AuditGrowth(s, s', a.event.id, kind);
    }
  }

  lemma {:induction false} EveryRunAuditsOnce(actions: seq<Action>)
    ensures AuditedOnce(Run(actions))
  {
    if actions != [] {
      var n := |actions| - 1;
      EveryRunAuditsOnce(actions[..n]);
      StepAuditsOnce(Run(actions[..n]), actions[n]);
    }
  }

  // An event id is marked processed exactly when one application of it, and only one, is on record.
  lemma AppliedExactlyOnce(actions: seq<Action>, id: string)
    ensures var s := Run(actions);
            Lookup(s.receipts, id) == Some(Processed) <==>
            exists i :: 0 <= i < |s.audit| && s.audit[i].event == id
                        && forall j | 0 <= j < |s.audit| && s.audit[j].event == id :: j == i
  {
    EveryRunAuditsOnce(actions);
    var s := Run(actions);
    if Lookup(s.receipts, id) == Some(Processed) {
      var i :| 0 <= i < |s.audit| && s.audit[i].event == id;
      assert forall j | 0 <= j < |s.audit| && s.audit[j].event == id :: j == i;
    }
  }

  // Recording an event before it is processed makes no difference if and only if processing it would
  // succeed; if it fails, what is left is the receipt, open for another try.
  lemma RecordingFirst(s: Store, catalog: Catalog, e: Event, now: Time)
    requires e.id !in s.receipts
    ensures var recorded := RecordWebhook(s, e).0;
            && (ProcessWebhook(recorded, catalog, e, now).0 == ProcessWebhook(s, catalog, e, now).0
                <==> ApplyEvent(s, catalog, e, now).Applied?)
            && (ApplyEvent(s, catalog, e, now).Failed? ==>
                  ProcessWebhook(recorded, catalog, e, now).0 == recorded && recorded.receipts[e.id].Received?)
  {
    var receipts := RecordWebhook(s, e).0.receipts;
    ReceiptsDoNotMatter(s, catalog, e, now, receipts);
    if !e.body.Unsupported? {
      assert receipts[e.id := Processed] == s.receipts[e.id := Processed];
    }
  }

  // Applying an event neither reads nor writes the receipts.
  lemma ReceiptsDoNotMatter(s: Store, catalog: Catalog, e: Event, now: Time, receipts: map<string, ReceiptStatus>)
    ensures match ApplyEvent(s, catalog, e, now)
            case Failed(error) => ApplyEvent(s.(receipts := receipts), catalog, e, now) == Failed(error)
            case Applied(after) =>
              ApplyEvent(s.(receipts := receipts), catalog, e, now) == Applied(after.(receipts := receipts))
  {
  }

  // A processed event, delivered again, changes nothing.
  lemma RedeliveryChangesNothing(s: Store, catalog: Catalog, e: Event, now: Time)
    requires Lookup(s.receipts, e.id) == Some(Processed)
    ensures ProcessWebhook(s, catalog, e, now) == (s, Duplicate(Processed))
    ensures RecordWebhook(s, e) == (s, Duplicate(Processed))
  {
  }

  // --- The watermark -------------------------------------------------------------------------------

  predicate Timed(s: Store, sub: SubId) {
    sub in s.subs && s.subs[sub].eventAt.Some?
  }

  // The event is not a duplicate and writes the subscription's row: nothing stops it but a paid
  // invoice of a canceled subscription.
  predicate Delivers(s: Store, e: Event, sub: SubId)
    requires sub in s.subs
  {
    && (e.id in s.receipts ==> s.receipts[e.id].Received?)
    && match e.body
       case SubscriptionEvent(Some(change)) => change.sub == sub
       case InvoiceEvent(Some(invoice)) => invoice.sub == sub && !(s.subs[sub].status.Canceled? && invoice.paid)
       case _ => false
  }

  // An event without a creation time gets through, or an operator resyncs with a clock behind the row.
  predicate Lowers(s: Store, a: Action, sub: SubId)
    requires Timed(s, sub)
  {
    match a
    case Process(e, _, _) => e.created.None? && Delivers(s, e, sub)
    case ResyncSub(x, _, _, now) => x == sub && now < s.subs[sub].eventAt.value
    case _ => false
  }

  predicate NotBelow(before: Store, after: Store, sub: SubId)
    requires Timed(before, sub)
  {
    Timed(after, sub) && before.subs[sub].eventAt.value <= after.subs[sub].eventAt.value
  }

  // A step lowers or loses a watermark exactly so.
  lemma StepLowersWatermark(s: Store, a: Action, sub: SubId)
    requires Timed(s, sub)
    ensures !NotBelow(s, Apply(s, a), sub) <==> Lowers(s, a, sub)
  {
  }

  // Along the run the watermark is there and never below where it was a step before.
  predicate Climbs(earlier: seq<Action>, later: seq<Action>, sub: SubId) {
    later == []
    || var before := Run(earlier + later[..|later| - 1]);
       Climbs(earlier, later[..|later| - 1], sub) && Timed(before, sub) && NotBelow(before, Run(earlier + later), sub)
  }

  predicate NothingLowers(earlier: seq<Action>, later: seq<Action>, sub: SubId) {
    later == []
    || var before := Run(earlier + later[..|later| - 1]);
       NothingLowers(earlier, later[..|later| - 1], sub)
           && !(Timed(before, sub) && Lowers(before, later[|later| - 1], sub))
  }

  // A watermark never falls in a run if and only if no such step is in it.
  lemma {:induction false} WatermarkClimbsIffNothingLowers(earlier: seq<Action>, later: seq<Action>, sub: SubId)
    requires Timed(Run(earlier), sub)
    ensures Climbs(earlier, later, sub) <==> NothingLowers(earlier, later, sub)
    ensures Climbs(earlier, later, sub) ==> NotBelow(Run(earlier), Run(earlier + later), sub)
  {
    if later == [] {
      assert earlier + later == earlier;
    } else {
      var n := |later| - 1;
      WatermarkClimbsIffNothingLowers(earlier, later[..n], sub);
      assert (earlier + later)[..|earlier + later| - 1] == earlier + later[..n];
      var before := Run(earlier + later[..n]);
      if Timed(before, sub) { StepLowersWatermark(before, later[n], sub); }
    }
  }

  // Both happen: an untimed event erases the watermark, and a resync with an earlier clock moves it back.
  lemma WatermarkCanFall()
    ensures var s := Apply(EMPTY_STORE, ClaimedBy(1, "a", 5));
            var change := ClaimedBy(1, "b", 5).event.body.change;
            var untimed := Process(Event("b", None, SubscriptionEvent(change)), Catalog(map[], map[]), 6);
            var behind := ResyncSub("sub", change.value, Catalog(map[], map[]), 4);
            && Timed(s, "sub") && s.subs["sub"].eventAt == Some(5)
            && Lookup(Apply(s, untimed).subs, "sub") == Some(s.subs["sub"].(eventAt := None))
            && Lookup(Apply(s, behind).subs, "sub") == Some(s.subs["sub"].(eventAt := Some(4)))
  {
    assert "a" != "b" by { assert "a"[0] != "b"[0]; }
    DeliveryProjects(EMPTY_STORE, ClaimedBy(1, "a", 5), "sub");
    StepReceipts(EMPTY_STORE, ClaimedBy(1, "a", 5));
  }

  // --- Convergence ------------------------------------------------------------------------------------

  predicate Mentions(a: Action, x: SubId) {
    a.Process? && a.event.body.SubscriptionEvent? && a.event.body.change.Some? && a.event.body.change.value.sub == x
  }

  // A delivered subscription event on `x` with a creation time and explicit customer and plan.
  predicate About(a: Action, x: SubId) {
    Mentions(a, x) && a.event.created.Some? && a.event.body.change.value.customer.Some?
        && a.event.body.change.value.plan.Some?
  }

  function At(a: Action, x: SubId): Time
    requires About(a, x)
  {
    a.event.created.value
  }

  function Owner(a: Action, x: SubId): Id
    requires About(a, x)
  {
    a.event.body.change.value.customer.value
  }

  // What the event alone says the row should be, for a row owned by `owner`.
  function RowOf(a: Action, x: SubId, owner: Id): Subscription
    requires About(a, x)
  {
    var c := a.event.body.change.value;
    Subscription(owner, c.customer.value, c.plan.value, c.status, c.periodStart, c.periodEnd, c.cancelAtPeriodEnd,
                 a.event.created)
  }

  predicate TouchesOtherwise(a: Action, x: SubId) {
    || (a.Process? && a.event.body.InvoiceEvent? && a.event.body.invoice.Some? && a.event.body.invoice.value.sub == x)
    || (a.ResyncSub? && a.sub == x)
  }

  function EventOf(a: Action): Option<Event> {
    match a
    case Process(e, _, _) => Some(e)
    case Record(e) => Some(e)
    case _ => None
  }

  // Ids identify events, every subscription event on `x` is timestamped with explicit metadata,
  // and nothing else writes the row. Everything else may run in between.
  ghost predicate Clean(actions: seq<Action>, x: SubId) {
    && (forall i | 0 <= i < |actions| ::
          !TouchesOtherwise(actions[i], x) && (Mentions(actions[i], x) ==> About(actions[i], x)))
    && (forall i, j | 0 <= i < j < |actions| && EventOf(actions[i]).Some? && EventOf(actions[j]).Some? ::
          EventOf(actions[i]).value.id == EventOf(actions[j]).value.id ==> EventOf(actions[i]) == EventOf(actions[j]))
  }

  // The first delivered event on `x`: the insert takes its customer, and no update changes it.
  function First(actions: seq<Action>, x: SubId): (first: Option<Action>)
    ensures first.Some? ==> About(first.value, x)
    ensures first.None? <==> forall i | 0 <= i < |actions| :: !About(actions[i], x)
  {
    if actions == [] then None
    else
      var n := |actions| - 1;
      var earlier := First(actions[..n], x);
      assert actions == actions[..n] + [actions[n]];
      if earlier.Some? then earlier else if About(actions[n], x) then Some(actions[n]) else None
  }

  ghost predicate Newest(actions: seq<Action>, x: SubId, i: nat) {
    && i < |actions| && About(actions[i], x)
    && forall j | 0 <= j < |actions| && About(actions[j], x) :: At(actions[j], x) <= At(actions[i], x)
  }

  ghost predicate HasRowOf(actions: seq<Action>, x: SubId, s: Store, i: nat) {
    && Newest(actions, x, i) && x in s.subs && First(actions, x).Some?
    && s.subs[x] == RowOf(actions[i], x, Owner(First(actions, x).value, x))
  }

  // Receipts say what was delivered: a processed one some delivery, an ignored one an unsupported event.
  ghost predicate ReceiptsTrace(actions: seq<Action>, x: SubId, s: Store) {
    && (forall i | 0 <= i < |actions| && About(actions[i], x) ::
        Lookup(s.receipts, actions[i].event.id) == Some(Processed))
    && (forall id | Lookup(s.receipts, id) == Some(Processed) ::
          exists i :: 0 <= i < |actions| && actions[i].Process? && actions[i].event.id == id)
    && (forall id | Lookup(s.receipts, id) == Some(Ignored) ::
          exists i :: 0 <= i < |actions| && EventOf(actions[i]).Some? && EventOf(actions[i]).value.id == id
                      && EventOf(actions[i]).value.body.Unsupported?)
  }

  ghost predicate Tracks(actions: seq<Action>, x: SubId, s: Store) {
    && ReceiptsTrace(actions, x, s)
    && (x in s.subs <==> First(actions, x).Some?)
    && (x in s.subs ==> exists i: nat :: HasRowOf(actions, x, s, i))
  }

  // How one action moves the receipts.
  lemma StepReceipts(s: Store, a: Action)
    ensures var s' := Apply(s, a);
            && (forall id | EventOf(a).None? || id != EventOf(a).value.id ::
                Lookup(s'.receipts, id) == Lookup(s.receipts, id))
            && (forall id | Lookup(s.receipts, id) == Some(Processed) :: Lookup(s'.receipts, id) == Some(Processed))
            && (EventOf(a).Some? ==>
                  var after := Lookup(s'.receipts, EventOf(a).value.id);
                  after == Lookup(s.receipts, EventOf(a).value.id)
                  || (after == Some(Processed) && a.Process?)
                  || (after == Some(Ignored) && EventOf(a).value.body.Unsupported?)
                  || after == Some(Received))
  {
  }

  lemma StepReceiptsTrace(actions: seq<Action>, a: Action, x: SubId, s: Store)
    requires Clean(actions + [a], x) && ReceiptsTrace(actions, x, s)
    requires About(a, x) ==> Lookup(Apply(s, a).receipts, a.event.id) == Some(Processed)
    ensures ReceiptsTrace(actions + [a], x, Apply(s, a))
  {
    var all, s' := actions + [a], Apply(s, a);
    StepReceipts(s, a);
    forall id | Lookup(s'.receipts, id) == Some(Processed)
      ensures exists i :: 0 <= i < |all| && all[i].Process? && all[i].event.id == id
    {
      if Lookup(s.receipts, id) == Some(Processed) {
        var i :| 0 <= i < |actions| && actions[i].Process? && actions[i].event.id == id;
        assert all[i] == actions[i];
      } else {
        assert all[|actions|] == a;
      }
    }
    forall id | Lookup(s'.receipts, id) == Some(Ignored)
      ensures exists i :: 0 <= i < |all| && EventOf(all[i]).Some? && EventOf(all[i]).value.id == id
                          && EventOf(all[i]).value.body.Unsupported?
    {
      if Lookup(s.receipts, id) == Some(Ignored) {
        var i :| 0 <= i < |actions| && EventOf(actions[i]).Some? && EventOf(actions[i]).value.id == id
                 && EventOf(actions[i]).value.body.Unsupported?;
        assert all[i] == actions[i];
      } else {
        assert all[|actions|] == a;
      }
    }
  }

  // Delivering an event on `x` for the first time: stale ones are skipped, others overwrite all but the owner.
  lemma DeliveryProjects(s: Store, a: Action, x: SubId)
    requires About(a, x)
    requires Lookup(s.receipts, a.event.id) != Some(Processed) && Lookup(s.receipts, a.event.id) != Some(Ignored)
    ensures var s' := Apply(s, a);
            && Lookup(s'.receipts, a.event.id) == Some(Processed)
            && x in s'.subs
            && (x !in s.subs ==> s'.subs[x] == RowOf(a, x, Owner(a, x)))
            && (x in s.subs ==>
                  s'.subs[x] == if IsStale(a.event.created, s.subs[x].eventAt) then s.subs[x]
                      else RowOf(a, x, s.subs[x].customer))
  {
  }

  lemma OtherActionsKeepRow(s: Store, a: Action, x: SubId)
    requires !TouchesOtherwise(a, x) && !Mentions(a, x)
    ensures Lookup(Apply(s, a).subs, x) == Lookup(s.subs, x)
  {
  }

  lemma FirstAppend(actions: seq<Action>, a: Action, x: SubId)
    ensures First(actions + [a], x) ==
            if First(actions, x).Some? then First(actions, x) else if About(a, x) then Some(a) else None
  {
    assert (actions + [a])[..|actions|] == actions;
  }

  // A redelivered event's earlier delivery is the same event.
  lemma DeliveredBefore(actions: seq<Action>, a: Action, x: SubId, s: Store)
    requires Clean(actions + [a], x) && ReceiptsTrace(actions, x, s) && About(a, x)
    ensures Lookup(s.receipts, a.event.id) != Some(Ignored)
    ensures Lookup(s.receipts, a.event.id) == Some(Processed) ==>
              exists j :: 0 <= j < |actions| && About(actions[j], x) && At(actions[j], x) == At(a, x)
  {
    var all := actions + [a];
    forall i | 0 <= i < |actions| && EventOf(actions[i]).Some? && EventOf(actions[i]).value.id == a.event.id
      ensures EventOf(actions[i]) == Some(a.event)
    {
      assert EventOf(all[i]) == EventOf(all[|actions|]);
    }
    if Lookup(s.receipts, a.event.id) == Some(Processed) {
      var i :| 0 <= i < |actions| && actions[i].Process? && actions[i].event.id == a.event.id;
      assert EventOf(actions[i]) == Some(a.event);
      assert About(actions[i], x);
    }
  }

  lemma OtherStepTracks(actions: seq<Action>, a: Action, x: SubId, s: Store)
    requires Clean(actions + [a], x) && Tracks(actions, x, s) && !About(a, x)
    ensures Tracks(actions + [a], x, Apply(s, a))
  {
    var all := actions + [a];
    FirstAppend(actions, a, x);
    assert all[|actions|] == a && !TouchesOtherwise(all[|actions|], x) && !Mentions(all[|actions|], x);
    OtherActionsKeepRow(s, a, x);
    StepReceiptsTrace(actions, a, x, s);
    if x in s.subs { OtherKeepsNewest(actions, a, x, s, Apply(s, a)); }
  }

  lemma OtherKeepsNewest(actions: seq<Action>, a: Action, x: SubId, s: Store, s': Store)
    requires !About(a, x) && x in s.subs && exists i: nat :: HasRowOf(actions, x, s, i)
    requires Lookup(s'.subs, x) == Lookup(s.subs, x)
    ensures exists i: nat :: HasRowOf(actions + [a], x, s', i)
  {
    FirstAppend(actions, a, x);
    var i: nat :| HasRowOf(actions, x, s, i);
    assert HasRowOf(actions + [a], x, s', i);
  }

  lemma RedeliveryTracks(actions: seq<Action>, a: Action, x: SubId, s: Store)
    requires Clean(actions + [a], x) && Tracks(actions, x, s) && About(a, x)
    requires Lookup(s.receipts, a.event.id) == Some(Processed)
    ensures Tracks(actions + [a], x, Apply(s, a))
  {
    FirstAppend(actions, a, x);
    DeliveredBefore(actions, a, x, s);
    ProcessedIsDuplicate(s, a);
    StepReceiptsTrace(actions, a, x, s);
    RedeliveryKeepsNewest(actions, a, x, s);
  }

  lemma ProcessedIsDuplicate(s: Store, a: Action)
    requires a.Process? && Lookup(s.receipts, a.event.id) == Some(Processed)
    ensures Apply(s, a) == s
  {
  }

  lemma RedeliveryKeepsNewest(actions: seq<Action>, a: Action, x: SubId, s: Store)
    requires About(a, x) && x in s.subs && exists i: nat :: HasRowOf(actions, x, s, i)
    requires exists j :: 0 <= j < |actions| && About(actions[j], x) && At(actions[j], x) == At(a, x)
    ensures exists i: nat :: HasRowOf(actions + [a], x, s, i)
  {
    FirstAppend(actions, a, x);
    var i: nat :| HasRowOf(actions, x, s, i);
    assert HasRowOf(actions + [a], x, s, i);
  }

  lemma DeliveryTracks(actions: seq<Action>, a: Action, x: SubId, s: Store)
    requires Clean(actions + [a], x) && Tracks(actions, x, s) && About(a, x)
    requires Lookup(s.receipts, a.event.id) != Some(Processed) && Lookup(s.receipts, a.event.id) != Some(Ignored)
    ensures Tracks(actions + [a], x, Apply(s, a))
  {
    var all, s', n := actions + [a], Apply(s, a), |actions|;
    FirstAppend(actions, a, x);
    DeliveryProjects(s, a, x);
    StepReceiptsTrace(actions, a, x, s);
    assert all[n] == a;
    if x in s.subs {
      var i: nat :| HasRowOf(actions, x, s, i);
      assert all[i] == actions[i];
      assert HasRowOf(all, x, s', if IsStale(a.event.created, s.subs[x].eventAt) then i else n);
    } else {
      assert HasRowOf(all, x, s', n);
    }
  }

  lemma StepTracks(actions: seq<Action>, a: Action, x: SubId, s: Store)
    requires Clean(actions + [a], x) && Tracks(actions, x, s)
    ensures Tracks(actions + [a], x, Apply(s, a))
  {
    if !About(a, x) {
      OtherStepTracks(actions, a, x, s);
    } else if Lookup(s.receipts, a.event.id) == Some(Processed) {
      RedeliveryTracks(actions, a, x, s);
    } else {
      DeliveredBefore(actions, a, x, s);
      DeliveryTracks(actions, a, x, s);
    }
  }

  lemma CleanPrefix(actions: seq<Action>, n: nat, x: SubId)
    requires Clean(actions, x) && n <= |actions|
    ensures Clean(actions[..n], x)
  {
  }

  lemma {:induction false} EveryCleanRunTracks(actions: seq<Action>, x: SubId)
    requires Clean(actions, x)
    ensures Tracks(actions, x, Run(actions))
  {
    if actions != [] {
      var n := |actions| - 1;
      CleanPrefix(actions, n, x);
      EveryCleanRunTracks(actions[..n], x);
      assert actions[..n] + [actions[n]] == actions;
      StepTracks(actions[..n], actions[n], x, Run(actions[..n]));
    }
  }

  // Whatever the arrival order and however often each event is delivered or merely recorded, the
  // row ends as the newest delivered event says, under the owner the first delivery named.
  lemma EndsWithNewest(actions: seq<Action>, x: SubId, i: nat)
    requires Clean(actions, x) && Newest(actions, x, i)
    requires forall j | 0 <= j < |actions| && About(actions[j], x) && At(actions[j], x) == At(actions[i], x) ::
               actions[j].event == actions[i].event
    ensures x in Run(actions).subs
    ensures First(actions, x).Some? && Run(actions).subs[x] == RowOf(actions[i], x, Owner(First(actions, x).value, x))
  {
    EveryCleanRunTracks(actions, x);
    var k: nat :| HasRowOf(actions, x, Run(actions), k);
    assert actions[k].event == actions[i].event;
  }

  ghost predicate Delivered(actions: seq<Action>, e: Event, x: SubId) {
    exists j :: 0 <= j < |actions| && About(actions[j], x) && actions[j].event == e
  }

  ghost predicate DeliverSameEvents(left: seq<Action>, right: seq<Action>, x: SubId) {
    forall e :: Delivered(left, e, x) <==> Delivered(right, e, x)
  }

  ghost predicate DistinctTimes(actions: seq<Action>, x: SubId) {
    forall i, j | 0 <= i < |actions| && 0 <= j < |actions| && About(actions[i], x) && About(actions[j], x)
                  && At(actions[i], x) == At(actions[j], x) :: actions[i].event == actions[j].event
  }

  lemma NewestIsDeliveredToo(left: seq<Action>, right: seq<Action>, x: SubId, i: nat) returns (j: nat)
    requires DeliverSameEvents(left, right, x) && Newest(left, x, i)
    ensures Newest(right, x, j) && right[j].event == left[i].event
  {
    assert Delivered(left, left[i].event, x);
    j :| 0 <= j < |right| && About(right[j], x) && right[j].event == left[i].event;
    forall k | 0 <= k < |right| && About(right[k], x) ensures At(right[k], x) <= At(right[j], x) {
      assert Delivered(right, right[k].event, x);
      var m :| 0 <= m < |left| && About(left[m], x) && left[m].event == right[k].event;
      assert At(left[m], x) <= At(left[i], x);
    }
  }

  // Two runs that deliver the same events on `x`, in any orders and with any repetitions, end with
  // the same row if and only if their first deliveries name the same customer.
  lemma ConvergesIffOwnersAgree(left: seq<Action>, right: seq<Action>, x: SubId)
    requires Clean(left, x) && Clean(right, x)
    requires DistinctTimes(left, x) && DistinctTimes(right, x)
    requires DeliverSameEvents(left, right, x)
    requires First(left, x).Some?
    ensures First(right, x).Some? && x in Run(left).subs && x in Run(right).subs
    ensures Run(left).subs[x] == Run(right).subs[x]
            <==> Owner(First(left, x).value, x) == Owner(First(right, x).value, x)
  {
    EveryCleanRunTracks(left, x);
    var i: nat :| HasRowOf(left, x, Run(left), i);
    var j := NewestIsDeliveredToo(left, right, x, i);
    EndsWithNewest(left, x, i);
    EndsWithNewest(right, x, j);
  }

  // Two events on one subscription that name different customers.
  function ClaimedBy(customer: Id, id: string, at: Time): Action {
    Process(Event(id, Some(at), SubscriptionEvent(Some(
      Change("sub", None, Some(customer), Some(0), None, Active, None, None, false)))), Catalog(map[], map[]), at)
  }

  // Delivered in either order they leave different rows: the first delivery keeps the subscription.
  lemma OwnerDependsOnOrder()
    ensures var a, b := ClaimedBy(1, "a", 1), ClaimedBy(2, "b", 2);
            && Lookup(Apply(Apply(EMPTY_STORE, a), b).subs, "sub") == Some(RowOf(b, "sub", 1))
            && Lookup(Apply(Apply(EMPTY_STORE, b), a).subs, "sub") == Some(RowOf(b, "sub", 2))
  {
    assert "a" != "b" by { assert "a"[0] != "b"[0]; }
    DeliveryProjects(EMPTY_STORE, ClaimedBy(1, "a", 1), "sub");
    DeliveryProjects(EMPTY_STORE, ClaimedBy(2, "b", 2), "sub");
    StepReceipts(EMPTY_STORE, ClaimedBy(1, "a", 1));
    StepReceipts(EMPTY_STORE, ClaimedBy(2, "b", 2));
    DeliveryProjects(Apply(EMPTY_STORE, ClaimedBy(1, "a", 1)), ClaimedBy(2, "b", 2), "sub");
    DeliveryProjects(Apply(EMPTY_STORE, ClaimedBy(2, "b", 2)), ClaimedBy(1, "a", 1), "sub");
  }
}
