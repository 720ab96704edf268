/** The licence a subscription ends with: the history of its row's status, folded by the sync rules. */
module CommerceLicenses {
  import opened Wrappers
  import opened LicenseTables
  import opened LicenseRuns
  import opened Commerce
  import opened CommerceRuns
  import opened CommerceConvergence

  // The status of the licence linked to `x` under its present owner.
  function LinkedOf(s: Store, x: SubId): Option<LicenseStatus> {
    if x in s.subs then LinkedStatus(s.tables.licenses, s.subs[x].customer, x) else None
  }

  function StatusOf(s: Store, x: SubId): Option<SubscriptionStatus> {
    if x in s.subs then Some(s.subs[x].status) else None
  }

  // --- The fold -------------------------------------------------------------------------------------

  // What a licence in this state, or none, becomes when the subscription's status is `sub`.
  function Settled(license: Option<LicenseStatus>, sub: SubscriptionStatus): Option<LicenseStatus> {
    match LicenseSyncAction(license, sub)
    case None => license
    case Some(Issue) => Some(LicenseActive)
    case Some(Reactivate) => Some(LicenseActive)
    case Some(Suspend) => Some(LicenseSuspended)
    case Some(Expire) => Some(LicenseExpired)
  }

  function Folded(statuses: seq<SubscriptionStatus>): Option<LicenseStatus> {
    if statuses == [] then None else Settled(Folded(statuses[..|statuses| - 1]), statuses[|statuses| - 1])
  }

  // The status the row has after each step of the run that leaves it stored.
  function StatusHistory(actions: seq<Action>, x: SubId): seq<SubscriptionStatus> {
    if actions == [] then []
    else
      var status := StatusOf(Run(actions), x);
      StatusHistory(actions[..|actions| - 1], x) + (if status.Some? then [status.value] else [])
  }

  lemma FoldedAppend(statuses: seq<SubscriptionStatus>, status: SubscriptionStatus)
    ensures Folded(statuses + [status]) == Settled(Folded(statuses), status)
  {
    assert (statuses + [status])[..|statuses|] == statuses;
  }

  // So a licence comes of a history if and only if cloud was granted in it.
  lemma {:induction false} FoldedIffGranted(statuses: seq<SubscriptionStatus>)
    ensures Folded(statuses).Some? <==> exists status | status in statuses :: status.GrantsCloud()
  {
    if statuses != [] {
      var n := |statuses| - 1;
      assert statuses == statuses[..n] + [statuses[n]];
      FoldedIffGranted(statuses[..n]);
    }
  }

  // --- One step -------------------------------------------------------------------------------------

  predicate Syncs(s: Store, a: Action, x: SubId) {
    var op := OpOf(s, a);
    op.Some? && op.value.OpSync? && op.value.sub == x
  }

  // A step that does not sync the row leaves its owner and its status.
  lemma StatusMovesBySync(s: Store, a: Action, x: SubId)
    requires !Syncs(s, a, x)
    ensures StatusOf(Apply(s, a), x) == StatusOf(s, x)
    ensures x in s.subs ==> Apply(s, a).subs[x].customer == s.subs[x].customer
  {
  }

  lemma FoundIsTheOne(ls: seq<License>, customer: Id, x: SubId, i: nat)
    requires OneLinked(ls) && i < |ls| && ls[i].LinkedTo(customer, x)
    ensures FindLinked(ls, customer, x) == Some(i)
  {
  }

  // Rows that keep their identity are found again, and no new row is linked to the pair.
  lemma OtherOpKeepsLinked(t: Tables, op: Op, customer: Id, x: SubId)
    requires OneLinked(Perform(t, op).licenses) && !(op.OpSync? && op.sub == x)
    ensures var after := LinkedStatus(Perform(t, op).licenses, customer, x);
            after == Some(LicenseRevoked) || after == LinkedStatus(t.licenses, customer, x)
  {
    var ls, ls' := t.licenses, Perform(t, op).licenses;
    assert SameIdentity(ls, ls');
    assert forall i | |ls| <= i < |ls'| :: !ls'[i].LinkedTo(customer, x);
    assert forall i | 0 <= i < |ls| && ls[i].LinkedTo(customer, x) ::
        ls'[i].status == ls[i].status || ls'[i].status.LicenseRevoked?;
    var found := FindLinked(ls, customer, x);
    if found.Some? { FoundIsTheOne(ls', customer, x, found.value); }
  }

  lemma SyncSettles(t: Tables, customer: Id, x: SubId, plan: Plan, status: SubscriptionStatus, now: Time)
    requires OneLinked(SyncLicense(t, customer, x, Some(plan), status, now).licenses)
    ensures LinkedStatus(SyncLicense(t, customer, x, Some(plan), status, now).licenses, customer, x)
         == Settled(LinkedStatus(t.licenses, customer, x), status)
  {
    var ls, ls' := t.licenses, SyncLicense(t, customer, x, Some(plan), status, now).licenses;
    var found := FindLinked(ls, customer, x);
    if found.Some? {
      FoundIsTheOne(ls', customer, x, found.value);
    } else if status.GrantsCloud() {
      FoundIsTheOne(ls', customer, x, |ls|);
    }
  }

  // Before the first row nothing is linked; from then on the owner is the row's for good.
  lemma LinkedUnderOwner(s: Store, a: Action, x: SubId)
    requires LinkedToOwner(s) && x in Apply(s, a).subs
    ensures LinkedOf(s, x) == LinkedStatus(s.tables.licenses, Apply(s, a).subs[x].customer, x)
  {
  }

  // A sync of a row whose plan version is unknown wrote nothing new, and had nothing to do.
  lemma SyncStepSettles(s: Store, a: Action, x: SubId)
    requires Sound(s.tables) && Sound(Apply(s, a).tables) && LinkedToOwner(s)
    requires AgreesOn(s, x) && WritesKnown(s, a, x) && Syncs(s, a, x)
    ensures x in Apply(s, a).subs && LinkedOf(Apply(s, a), x) == Settled(LinkedOf(s, x), Apply(s, a).subs[x].status)
  {
    SyncsStoredRow(s, a);
    StepIsOneOp(s, a);
    LinkedUnderOwner(s, a, x);
    var row := Apply(s, a).subs[x];
    if row.plan in a.catalog.plans {
      SyncSettles(s.tables, row.customer, x, a.catalog.plans[row.plan], row.status, a.now);
    } else {
      AgreesIffNothingToSync(s, x);
    }
  }

  lemma StepSettles(s: Store, a: Action, x: SubId)
    requires Sound(s.tables) && Sound(Apply(s, a).tables) && LinkedToOwner(s)
    requires AgreesOn(s, x) && WritesKnown(s, a, x)
    requires LinkedOf(Apply(s, a), x) != Some(LicenseRevoked)
    ensures LinkedOf(Apply(s, a), x)
         == if x in Apply(s, a).subs then Settled(LinkedOf(s, x), Apply(s, a).subs[x].status) else None
  {
    if Syncs(s, a, x) {
      SyncStepSettles(s, a, x);
    } else if x in Apply(s, a).subs {
      StatusMovesBySync(s, a, x);
      AgreesIffNothingToSync(s, x);
      StepIsOneOp(s, a);
      var op := OpOf(s, a);
      if op.Some? { OtherOpKeepsLinked(s.tables, op.value, s.subs[x].customer, x); }
    }
  }

  // --- Whole runs -----------------------------------------------------------------------------------

  lemma RevokedOpStays(t: Tables, op: Op, customer: Id, x: SubId)
    requires OneLinked(Perform(t, op).licenses) && LinkedStatus(t.licenses, customer, x) == Some(LicenseRevoked)
    ensures LinkedStatus(Perform(t, op).licenses, customer, x) == Some(LicenseRevoked)
  {
    var ls, ls' := t.licenses, Perform(t, op).licenses;
    var found := FindLinked(ls, customer, x);
    assert SameIdentity(ls, ls');
    assert ls'[found.value].status.LicenseRevoked?;
    FoundIsTheOne(ls', customer, x, found.value);
  }

  lemma OwnerStays(s: Store, a: Action, x: SubId)
    requires x in s.subs
    ensures x in Apply(s, a).subs && Apply(s, a).subs[x].customer == s.subs[x].customer
  {
  }

  // A revoked linked licence stays so.
  lemma RevokedStays(s: Store, a: Action, x: SubId)
    requires OneLinked(Apply(s, a).tables.licenses) && LinkedOf(s, x) == Some(LicenseRevoked)
    ensures LinkedOf(Apply(s, a), x) == Some(LicenseRevoked)
  {
    OwnerStays(s, a, x);
    StepIsOneOp(s, a);
    var op := OpOf(s, a);
    if op.Some? { RevokedOpStays(s.tables, op.value, s.subs[x].customer, x); }
  }

  // In every run that writes the row on known plan versions, and does not revoke the linked licence,
  // that licence is what the row's status history folds to: its presence and its status.
  lemma {:induction false} LinkedIsFolded(actions: seq<Action>, x: SubId)
    requires AllWritesKnown(actions, x)
    requires LinkedOf(Run(actions), x) != Some(LicenseRevoked)
    ensures LinkedOf(Run(actions), x) == Folded(StatusHistory(actions, x))
  {
    if actions != [] {
      var n := |actions| - 1;
      var s := Run(actions[..n]);
      KnownPrefix(actions, n, x);
      EveryRunIsSoundlyLicensed(actions);
      if LinkedOf(s, x) == Some(LicenseRevoked) {
        RevokedStays(s, actions[n], x);
        assert false;
      }
      LinkedIsFolded(actions[..n], x);
      LastStepSettles(actions, x);
      HistoryStep(actions, x);
      if x in s.subs { OwnerStays(s, actions[n], x); }
    }
  }

  lemma LastStepSettles(actions: seq<Action>, x: SubId)
    requires actions != [] && AllWritesKnown(actions, x)
    requires LinkedOf(Run(actions), x) != Some(LicenseRevoked)
    ensures LinkedOf(Run(actions), x)
         == if x !in Run(actions).subs then None
            else Settled(LinkedOf(Run(actions[..|actions| - 1]), x), Run(actions).subs[x].status)
  {
    var n := |actions| - 1;
    KnownPrefix(actions, n, x);
    EveryRunAgreesOn(actions[..n], x);
    EveryRunKeepsOwners(actions[..n]);
    EveryRunIsSoundlyLicensed(actions[..n]);
    EveryRunIsSoundlyLicensed(actions);
    StepSettles(Run(actions[..n]), actions[n], x);
  }

  lemma HistoryStep(actions: seq<Action>, x: SubId)
    requires actions != []
    ensures var before := StatusHistory(actions[..|actions| - 1], x);
            Folded(StatusHistory(actions, x))
            == if x in Run(actions).subs then Settled(Folded(before), Run(actions).subs[x].status) else Folded(before)
  {
    var before := StatusHistory(actions[..|actions| - 1], x);
    if x in Run(actions).subs {
      FoldedAppend(before, Run(actions).subs[x].status);
    } else {
      assert before + [] == before;
    }
  }

  // --- Where the licence depends on the order -------------------------------------------------------

  predicate EverGranted(actions: seq<Action>, x: SubId) {
    exists status | status in StatusHistory(actions, x) :: status.GrantsCloud()
  }

  // A licence is linked if and only if the row granted cloud after some step, whatever was revoked.
  lemma {:induction false} LinkedIffEverGranted(actions: seq<Action>, x: SubId)
    requires AllWritesKnown(actions, x)
    ensures HasLinked(Run(actions).tables.licenses, x) <==> EverGranted(actions, x)
  {
    if actions != [] {
      var n := |actions| - 1;
      KnownPrefix(actions, n, x);
      LinkedIffEverGranted(actions[..n], x);
      LinkMeansGranted(Run(actions[..n]), actions[n], x);
      EveryRunAgreesOn(actions, x);
    }
  }

  // A new linked licence comes with a row that grants; a linked one is never unlinked.
  lemma LinkMeansGranted(s: Store, a: Action, x: SubId)
    ensures HasLinked(s.tables.licenses, x) ==> HasLinked(Apply(s, a).tables.licenses, x)
    ensures HasLinked(Apply(s, a).tables.licenses, x) && !HasLinked(s.tables.licenses, x) ==>
              x in Apply(s, a).subs && Apply(s, a).subs[x].status.GrantsCloud()
  {
    StepIsOneOp(s, a);
    var op := OpOf(s, a);
    if op.Some? {
      OpLinks(s.tables, op.value, x);
      if op.value.OpSync? { SyncsStoredRow(s, a); }
    }
  }

  lemma OpLinks(t: Tables, op: Op, x: SubId)
    ensures HasLinked(t.licenses, x) ==> HasLinked(Perform(t, op).licenses, x)
    ensures HasLinked(Perform(t, op).licenses, x) && !HasLinked(t.licenses, x) ==>
              op.OpSync? && op.sub == x && op.status.GrantsCloud()
  {
    var ls, ls' := t.licenses, Perform(t, op).licenses;
    assert SameIdentity(ls, ls');
    if HasLinked(ls, x) {
      HasLinkedGrows(ls, ls', x);
    } else if HasLinked(ls', x) {
      var i :| 0 <= i < |ls'| && ls'[i].subscription == Some(x);
      assert i >= |ls|;
    }
  }

  // A row that ends canceled leaves an expired licence, and one that ends granting cloud an active
  // one, if it ever granted cloud before; otherwise there is none.
  lemma FinalLicense(actions: seq<Action>, x: SubId, status: SubscriptionStatus)
    requires AllWritesKnown(actions, x) && LinkedOf(Run(actions), x) != Some(LicenseRevoked)
    requires StatusOf(Run(actions), x) == Some(status) && (status.GrantsCloud() || status.Canceled?)
    ensures LinkedOf(Run(actions), x)
         == if EverGranted(actions, x) then Some(if status.Canceled? then LicenseExpired else LicenseActive) else None
  {
    LinkedIsFolded(actions, x);
    FoldedIffGranted(StatusHistory(actions, x));
    EveryRunAgreesOn(actions, x);
    EveryRunKeepsOwners(actions);
    EveryRunIsSoundlyLicensed(actions);
    AgreesIffNothingToSync(Run(actions), x);
  }

  // Two runs that end with the row in one such status leave the same licence, or neither one, if and
  // only if both granted cloud at some point or neither did.
  lemma LicensesConvergeIffBothGranted(left: seq<Action>, right: seq<Action>, x: SubId, status: SubscriptionStatus)
    requires AllWritesKnown(left, x) && LinkedOf(Run(left), x) != Some(LicenseRevoked)
    requires AllWritesKnown(right, x) && LinkedOf(Run(right), x) != Some(LicenseRevoked)
    requires StatusOf(Run(left), x) == StatusOf(Run(right), x) == Some(status)
    requires status.GrantsCloud() || status.Canceled?
    ensures LinkedOf(Run(left), x) == LinkedOf(Run(right), x) <==> (EverGranted(left, x) <==> EverGranted(right, x))
  {
    FinalLicense(left, x, status);
    FinalLicense(right, x, status);
  }

  // A subscription's activation at one, and its cancellation at two.
  function StatusEvent(id: string, at: Time, status: SubscriptionStatus): Action {
    Process(Event(id, Some(at), SubscriptionEvent(Some(
      Change("sub", None, Some(1), Some(0), None, status, None, None, false)))),
            Catalog(map[0 := Plan(0, 1)], map[]), at)
  }

  // Delivered in either order they leave the same row; the licence is expired in one order, and was
  // never issued in the other.
  lemma LicenseDependsOnOrder()
    ensures var on, off := StatusEvent("on", 1, Active), StatusEvent("off", 2, Canceled);
            var inOrder, reversed := Apply(Apply(EMPTY_STORE, on), off), Apply(Apply(EMPTY_STORE, off), on);
            && Lookup(inOrder.subs, "sub") == Lookup(reversed.subs, "sub") == Some(RowOf(off, "sub", 1))
            && LinkedOf(inOrder, "sub") == Some(LicenseExpired) && LinkedOf(reversed, "sub") == None
  {
    assert "on" != "off" by { assert |"on"| != |"off"|; }
    ActivatedThenCanceled("on", "off");
    CanceledThenActivated("on", "off");
  }

  lemma StatusEventSyncs(s: Store, id: string, at: Time, status: SubscriptionStatus)
    requires id !in s.receipts && Sound(s.tables)
    requires "sub" in s.subs ==> s.subs["sub"].customer == 1 && !IsStale(Some(at), s.subs["sub"].eventAt)
    ensures var a := StatusEvent(id, at, status);
            && Lookup(Apply(s, a).subs, "sub") == Some(RowOf(a, "sub", 1))
            && Sound(Apply(s, a).tables)
            && LinkedOf(Apply(s, a), "sub") == Settled(LinkedStatus(s.tables.licenses, 1, "sub"), status)
  {
    var a, plan := StatusEvent(id, at, status), Plan(0, 1);
    DeliveryProjects(s, a, "sub");
    assert Apply(s, a).tables == SyncLicense(s.tables, 1, "sub", Some(plan), status, at);
    SyncKeepsSound(s.tables, 1, "sub", Some(plan), status, at);
    SyncSettles(s.tables, 1, "sub", plan, status, at);
  }

  lemma ActivatedThenCanceled(first: string, second: string)
    requires first != second
    ensures var off := StatusEvent(second, 2, Canceled);
            var s := Apply(Apply(EMPTY_STORE, StatusEvent(first, 1, Active)), off);
            Lookup(s.subs, "sub") == Some(RowOf(off, "sub", 1)) && LinkedOf(s, "sub") == Some(LicenseExpired)
  {
    var on := StatusEvent(first, 1, Active);
    StepReceipts(EMPTY_STORE, on);
    StatusEventSyncs(EMPTY_STORE, first, 1, Active);
    StatusEventSyncs(Apply(EMPTY_STORE, on), second, 2, Canceled);
  }

  lemma CanceledThenActivated(first: string, second: string)
    requires first != second
    ensures var off := StatusEvent(second, 2, Canceled);
            var s := Apply(Apply(EMPTY_STORE, off), StatusEvent(first, 1, Active));
            Lookup(s.subs, "sub") == Some(RowOf(off, "sub", 1)) && LinkedOf(s, "sub") == None
  {
    var on, off := StatusEvent(first, 1, Active), StatusEvent(second, 2, Canceled);
    DeliveryProjects(EMPTY_STORE, off, "sub");
    StepReceipts(EMPTY_STORE, off);
    DeliveryProjects(Apply(EMPTY_STORE, off), on, "sub");
  }
}
