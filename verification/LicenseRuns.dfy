/** What every run of licensing transactions keeps: device limits, revocations, activations. */
module LicenseRuns {
  import opened Wrappers
  import opened LicenseTables

  datatype Op =
    | OpSync(customer: Id, sub: string, plan: Option<Plan>, status: SubscriptionStatus, now: Time)
    | OpIssue(customer: Id, product: Id, deviceLimit: int, expiresAt: Option<Time>, now: Time)
    | OpRevoke(license: Id)
    | OpRegister(register: RegisterInput)
    | OpActivate(activate: ActivateInput, now: Time)
    | OpDeactivate(customer: Id, installation: Id)
    | OpLease(customer: Id, installation: Id, ttl: int, now: Time)
    | OpFreeze(customer: Id)

  function Perform(t: Tables, op: Op): Tables {
    match op
    case OpSync(customer, sub, plan, status, now) => SyncLicense(t, customer, sub, plan, status, now)
    case OpIssue(customer, product, deviceLimit, expiresAt, now) =>
      IssueLicense(t, customer, product, deviceLimit, expiresAt, now)
    case OpRevoke(id) => RevokeLicense(t, id).0
    case OpRegister(input) => Register(t, input).0
    case OpActivate(input, now) => Activate(t, input, now).0
    case OpDeactivate(customer, installation) => Deactivate(t, customer, installation).0
    case OpLease(customer, installation, ttl, now) => IssueLease(t, customer, installation, ttl, now).0
    case OpFreeze(customer) => Freeze(t, customer)
  }

  function RunOps(t: Tables, ops: seq<Op>): Tables {
    if ops == [] then t else Perform(RunOps(t, ops[..|ops| - 1]), ops[|ops| - 1])
  }

  lemma {:induction false} RunOpsAppend(t: Tables, ops: seq<Op>, more: seq<Op>)
    ensures RunOps(t, ops + more) == RunOps(RunOps(t, ops), more)
  {
    if more == [] {
      assert ops + more == ops;
    } else {
      var n := |more| - 1;
      assert (ops + more)[..|ops + more| - 1] == ops + more[..n];
      RunOpsAppend(t, ops, more[..n]);
    }
  }

  // --- Invariants ------------------------------------------------------------------------------

  // An activation's licence and installation exist and belong to one customer.
  ghost predicate SameOwner(t: Tables) {
    forall i | 0 <= i < |t.activations| ::
      && t.activations[i].license < |t.licenses|
      && t.activations[i].installation < |t.installations|
      && t.licenses[t.activations[i].license].customer == t.installations[t.activations[i].installation].customer
  }

  ghost predicate OneActivePerPair(acts: seq<Activation>) {
    forall i, j | 0 <= i < j < |acts| :: acts[i].active ==> !acts[j].Holds(acts[i].license, acts[i].installation)
  }

  ghost predicate DeactivatedHoldNothing(t: Tables) {
    forall i | 0 <= i < |t.activations| ::
      t.activations[i].active && t.activations[i].installation < |t.installations| ==>
        t.installations[t.activations[i].installation].active
  }

  predicate Recorded(rs: seq<Revocation>, id: Id) {
    exists i | 0 <= i < |rs| :: rs[i].WholeLicense(id)
  }

  // Every revocation row denies the whole of one existing licence.
  predicate LicenseWide(rs: seq<Revocation>, licenses: nat) {
    forall i | 0 <= i < |rs| ::
      rs[i].license.Some? && rs[i].license.value < licenses && rs[i].WholeLicense(rs[i].license.value)
  }

  ghost predicate RevokedIffRecorded(t: Tables) {
    && LicenseWide(t.revocations, |t.licenses|)
    && (forall id: Id | id < |t.licenses| :: t.licenses[id].status.LicenseRevoked? <==> Recorded(t.revocations, id))
  }

  ghost predicate OneLinked(ls: seq<License>) {
    forall i, j | 0 <= i < j < |ls| && ls[i].subscription.Some? ::
        !ls[j].LinkedTo(ls[i].customer, ls[i].subscription.value)
  }

  // A linked licence has an expiry exactly when it is expired, unless it was revoked.
  ghost predicate LinkedExpiry(ls: seq<License>) {
    forall i | 0 <= i < |ls| && ls[i].subscription.Some? && !ls[i].status.LicenseRevoked? ::
      ls[i].expiresAt.Some? <==> ls[i].status.LicenseExpired?
  }

  ghost predicate Sound(t: Tables) {
    && SameOwner(t)
    && OneActivePerPair(t.activations)
    && DeactivatedHoldNothing(t)
    && RevokedIffRecorded(t)
    && OneLinked(t.licenses)
    && LinkedExpiry(t.licenses)
  }

  // --- Preservation -------------------------------------------------------------------------------

  // Rows keep what identifies them and what they are linked to.
  ghost predicate SameIdentity(ls: seq<License>, ls': seq<License>) {
    && |ls| <= |ls'|
    && forall i | 0 <= i < |ls| ::
         && ls'[i].customer == ls[i].customer && ls'[i].product == ls[i].product
         && ls'[i].subscription == ls[i].subscription && ls'[i].issuedAt == ls[i].issuedAt
  }

  lemma SyncKeepsSound(t: Tables, customer: Id, sub: string, plan: Option<Plan>, status: SubscriptionStatus, now: Time)
    requires Sound(t)
    ensures Sound(SyncLicense(t, customer, sub, plan, status, now))
  {
    var t' := SyncLicense(t, customer, sub, plan, status, now);
    assert SameIdentity(t.licenses, t'.licenses);
    SyncKeepsLinks(t, customer, sub, plan, status, now);
    SyncKeepsRevoked(t, customer, sub, plan, status, now);
  }

  lemma SyncKeepsLinks(t: Tables, customer: Id, sub: string, plan: Option<Plan>, status: SubscriptionStatus, now: Time)
    requires OneLinked(t.licenses) && LinkedExpiry(t.licenses)
    ensures var ls := SyncLicense(t, customer, sub, plan, status, now).licenses;
            OneLinked(ls) && LinkedExpiry(ls)
  {
  }

  lemma SyncKeepsRevoked(t: Tables, customer: Id, sub: string, plan: Option<Plan>, status: SubscriptionStatus,
                         now: Time)
    requires RevokedIffRecorded(t)
    ensures RevokedIffRecorded(SyncLicense(t, customer, sub, plan, status, now))
  {
  }

  lemma RecordedAppend(rs: seq<Revocation>, more: seq<Revocation>, id: Id)
    ensures Recorded(rs + more, id) <==> Recorded(rs, id) || Recorded(more, id)
  {
    var all := rs + more;
    if Recorded(rs, id) {
      var i :| 0 <= i < |rs| && rs[i].WholeLicense(id);
      assert all[i].WholeLicense(id);
    }
    if Recorded(more, id) {
      var i :| 0 <= i < |more| && more[i].WholeLicense(id);
      assert all[|rs| + i].WholeLicense(id);
    }
  }

  lemma RevokeKeepsSound(t: Tables, id: Id)
    requires Sound(t)
    ensures Sound(RevokeLicense(t, id).0)
  {
    var t' := RevokeLicense(t, id).0;
    if t' != t {
      var row := Revocation(Some(id), None, None);
      forall other: Id | other < |t.licenses|
        ensures Recorded(t'.revocations, other) <==> Recorded(t.revocations, other) || other == id
      {
        RecordedAppend(t.revocations, [row], other);
        assert [row][0].WholeLicense(other) <==> other == id;
      }
    }
  }

  lemma RegisterKeepsSound(t: Tables, input: RegisterInput)
    requires Sound(t)
    ensures Sound(Register(t, input).0)
  {
  }

  lemma ActivateKeepsSound(t: Tables, input: ActivateInput, now: Time)
    requires Sound(t)
    ensures Sound(Activate(t, input, now).0)
  {
    var (t', outcome) := Activate(t, input, now);
    if outcome.Activated? {
      ActivateAppends(t, input, now);
      ActivationKeepsSound(t, t'.activations[|t.activations|]);
    }
  }

  // A granted activation is one new row: an active licence and an active installation of one
  // customer, not paired before, while the licence's count is below the limit it answers.
  lemma ActivateAppends(t: Tables, input: ActivateInput, now: Time)
    ensures var (t', outcome) := Activate(t, input, now);
            if !outcome.Activated? then t' == t
            else
              && outcome.license < |t.licenses| && input.installation < |t.installations|
              && t.licenses[outcome.license].customer == t.installations[input.installation].customer
              && t.licenses[outcome.license].status.LicenseActive? && t.installations[input.installation].active
              && (forall i | 0 <= i < |t.activations| :: !t.activations[i].Holds(outcome.license, input.installation))
              && ActiveCount(t.activations, outcome.license) < outcome.deviceLimit
              && |t'.activations| == |t.activations| + 1
              && var row := t'.activations[|t.activations|];
              && t' == t.(activations := t.activations + [row])
              && row.license == outcome.license && row.installation == input.installation && row.active
              && row.device == t.installations[input.installation].device && row.activatedAt == now
              && outcome.activation == |t.activations|
  {
  }

  lemma ActivationKeepsSound(t: Tables, row: Activation)
    requires Sound(t) && row.license < |t.licenses| && row.installation < |t.installations| && row.active
    requires t.licenses[row.license].customer == t.installations[row.installation].customer
    requires t.installations[row.installation].active
    requires forall i | 0 <= i < |t.activations| :: !t.activations[i].Holds(row.license, row.installation)
    ensures Sound(t.(activations := t.activations + [row]))
  {
  }

  lemma DeactivateKeepsSound(t: Tables, customer: Id, installation: Id)
    requires Sound(t)
    ensures Sound(Deactivate(t, customer, installation).0)
  {
  }

  lemma {:induction false} NewRevocationsRecord(ls: seq<License>, customer: Id, id: Id)
    ensures Recorded(NewRevocations(ls, customer), id) <==> id in Revocable(ls, customer)
    ensures LicenseWide(NewRevocations(ls, customer), |ls|)
  {
    if ls != [] {
      var n := |ls| - 1;
      NewRevocationsRecord(ls[..n], customer, id);
      var row := Revocation(Some(n), None, None);
      assert row.WholeLicense(n);
      RecordedAppend(NewRevocations(ls[..n], customer), [row], id);
      assert [row][0].WholeLicense(id) <==> id == n;
      assert NewRevocations(ls[..n], customer) + [] == NewRevocations(ls[..n], customer);
    }
  }

  lemma FreezeKeepsRevocations(t: Tables, customer: Id)
    requires RevokedIffRecorded(t)
    ensures RevokedIffRecorded(Freeze(t, customer))
  {
    var t' := Freeze(t, customer);
    var added := NewRevocations(t.licenses, customer);
    forall id: Id | id < |t.licenses| ensures t'.licenses[id].status.LicenseRevoked? <==> Recorded(t'.revocations, id) {
      NewRevocationsRecord(t.licenses, customer, id);
      RecordedAppend(t.revocations, added, id);
    }
    NewRevocationsRecord(t.licenses, customer, 0);
  }

  lemma FreezeKeepsSound(t: Tables, customer: Id)
    requires Sound(t)
    ensures Sound(Freeze(t, customer))
  {
    FreezeKeepsRevocations(t, customer);
    assert SameIdentity(t.licenses, Freeze(t, customer).licenses);
  }

  lemma StepKeepsSound(t: Tables, op: Op)
    requires Sound(t)
    ensures Sound(Perform(t, op))
  {
    match op
    case OpSync(customer, sub, plan, status, now) => SyncKeepsSound(t, customer, sub, plan, status, now);
    case OpIssue(customer, product, deviceLimit, expiresAt, now) =>
      assert SameIdentity(t.licenses, Perform(t, op).licenses);
    case OpRevoke(id) => RevokeKeepsSound(t, id);
    case OpRegister(input) => RegisterKeepsSound(t, input);
    case OpActivate(input, now) => ActivateKeepsSound(t, input, now);
    case OpDeactivate(customer, installation) => DeactivateKeepsSound(t, customer, installation);
    case OpLease(customer, installation, ttl, now) =>
    case OpFreeze(customer) => FreezeKeepsSound(t, customer);
  }

  lemma {:induction false} EveryRunIsSound(ops: seq<Op>)
    ensures Sound(RunOps(EMPTY_TABLES, ops))
  {
    if ops != [] {
      var n := |ops| - 1;
      EveryRunIsSound(ops[..n]);
      StepKeepsSound(RunOps(EMPTY_TABLES, ops[..n]), ops[n]);
    }
  }

  // --- Revocation is permanent ------------------------------------------------------------------

  ghost predicate RevokedIn(t: Tables, id: Id) {
    id < |t.licenses| && t.licenses[id].status.LicenseRevoked?
  }

  // What any continuation keeps: identities, revoked rows, revocations, leases and activation
  // rows; and nothing new is granted on a licence revoked before.
  ghost predicate Continues(t: Tables, t': Tables) {
    && SameIdentity(t.licenses, t'.licenses)
    && (forall id: Id | RevokedIn(t, id) :: t'.licenses[id] == t.licenses[id])
    && t.revocations <= t'.revocations
    && t.leases <= t'.leases
    && (forall j | |t.leases| <= j < |t'.leases| :: !RevokedIn(t, t'.leases[j].license))
    && |t.activations| <= |t'.activations|
    && (forall j | 0 <= j < |t.activations| ::
          t'.activations[j] == t.activations[j] || t'.activations[j] == t.activations[j].(active := false))
    && (forall j | |t.activations| <= j < |t'.activations| :: !RevokedIn(t, t'.activations[j].license))
  }

  lemma StepContinues(t: Tables, op: Op)
    ensures Continues(t, Perform(t, op))
  {
    match op
    case OpActivate(input, now) => ActivateAppends(t, input, now);
    case _ =>
  }

  lemma {:induction false} RunsContinue(t: Tables, ops: seq<Op>)
    ensures Continues(t, RunOps(t, ops))
  {
    if ops != [] {
      var n := |ops| - 1;
      RunsContinue(t, ops[..n]);
      StepContinues(RunOps(t, ops[..n]), ops[n]);
    }
  }

  // After the revoking step no run reactivates the licence, lifts its record, activates it
  // anywhere, turns a released activation of it back on, or issues a lease on it.
  lemma RevocationIsPermanent(ops: seq<Op>, more: seq<Op>, id: Id)
    requires RevokedIn(RunOps(EMPTY_TABLES, ops), id)
    ensures var t, t' := RunOps(EMPTY_TABLES, ops), RunOps(EMPTY_TABLES, ops + more);
            && RevokedIn(t', id) && Recorded(t'.revocations, id)
            && (forall j | 0 <= j < |t'.activations| && t'.activations[j].license == id ::
                  j < |t.activations| && t.activations[j].license == id
                  && (t'.activations[j].active ==> t.activations[j].active))
            && (forall j | 0 <= j < |t'.leases| && t'.leases[j].license == id ::
                  j < |t.leases| && t.leases[j] == t'.leases[j])
  {
    RunOpsAppend(EMPTY_TABLES, ops, more);
    RunsContinue(RunOps(EMPTY_TABLES, ops), more);
    EveryRunIsSound(ops + more);
  }

  // --- Holding an active licence again ---------------------------------------------------------------

  predicate HoldsActive(ls: seq<License>, customer: Id) {
    exists l | l in ls :: l.customer == customer && l.status.LicenseActive?
  }

  // An operator issues the customer a licence, or one of the customer's subscriptions grants cloud on
  // a known plan version and has no linked licence, or one that is not revoked.
  predicate Regrants(t: Tables, op: Op, customer: Id) {
    match op
    case OpIssue(c, _, _, _, _) => c == customer
    case OpSync(c, sub, plan, status, _) =>
      && c == customer && plan.Some? && status.GrantsCloud()
      && var linked := FindLinked(t.licenses, c, sub);
         linked.Some? ==> !t.licenses[linked.value].status.LicenseRevoked?
    case _ => false
  }

  // A customer without an active licence gets one by exactly these steps.
  lemma StepRegrants(t: Tables, op: Op, customer: Id)
    requires !HoldsActive(t.licenses, customer)
    ensures HoldsActive(Perform(t, op).licenses, customer) <==> Regrants(t, op, customer)
  {
    var ls, ls' := t.licenses, Perform(t, op).licenses;
    if Regrants(t, op, customer) {
      var linked := if op.OpSync? then FindLinked(ls, customer, op.sub) else None;
      assert ls'[linked.GetOr(|ls|)] in ls';
    } else {
      forall i | 0 <= i < |ls'| ensures !(ls'[i].customer == customer && ls'[i].status.LicenseActive?) {
        if i < |ls| { assert ls[i] in ls; }
      }
    }
  }

  // At some point of the run the customer holds an active licence.
  predicate EverHolds(t: Tables, ops: seq<Op>, customer: Id) {
    HoldsActive(RunOps(t, ops).licenses, customer) || (ops != [] && EverHolds(t, ops[..|ops| - 1], customer))
  }

  predicate EverRegranted(t: Tables, ops: seq<Op>, customer: Id) {
    ops != []
    && var n := |ops| - 1;
       EverRegranted(t, ops[..n], customer) || Regrants(RunOps(t, ops[..n]), ops[n], customer)
  }

  // So whatever runs, the customer holds an active licence at some point if and only if such a step ran.
  lemma {:induction false} HoldsAgainIffRegranted(t: Tables, ops: seq<Op>, customer: Id)
    requires !HoldsActive(t.licenses, customer)
    ensures EverHolds(t, ops, customer) <==> EverRegranted(t, ops, customer)
  {
    if ops != [] {
      var n := |ops| - 1;
      HoldsAgainIffRegranted(t, ops[..n], customer);
      if !EverHolds(t, ops[..n], customer) {
        StepRegrants(RunOps(t, ops[..n]), ops[n], customer);
      }
    }
  }

  // --- Device limits --------------------------------------------------------------------------------

  lemma {:induction false} ReleasingFrees(acts: seq<Activation>, ids: set<Id>, id: Id)
    ensures ActiveCount(ReleaseWhere(acts, ids), id) <= ActiveCount(acts, id)
  {
    if acts != [] {
      var n := |acts| - 1;
      assert ReleaseWhere(acts, ids)[..n] == ReleaseWhere(acts[..n], ids);
      ReleasingFrees(acts[..n], ids, id);
    }
  }

  // The step newly activates licence `id` against this limit.
  predicate GrantsSlot(t: Tables, op: Op, id: Id, limit: nat) {
    op.OpActivate? &&
    var outcome := Activate(t, op.activate, op.now).1;
    outcome.Activated? && outcome.license == id && outcome.deviceLimit == limit
  }

  // An active count only grows by an activation, by one, from below the limit in force.
  lemma StepCount(t: Tables, op: Op, id: Id)
    ensures var (n, n') := (ActiveCount(t.activations, id), ActiveCount(Perform(t, op).activations, id));
            n' <= n || exists limit: nat :: GrantsSlot(t, op, id, limit) && n' == n + 1 <= limit
  {
    match op
    case OpDeactivate(customer, installation) =>
      ReleasingFrees(t.activations, OnInstallation(t.activations, installation), id);
    case OpFreeze(customer) => ReleasingFrees(t.activations, OwnedActive(t, customer), id);
    case OpActivate(input, now) =>
      ActivateAppends(t, input, now);
      var (t', outcome) := Activate(t, input, now);
      if outcome.Activated? {
        assert t'.activations[..|t.activations|] == t.activations;
        if outcome.license == id { assert GrantsSlot(t, op, id, outcome.deviceLimit); }
      }
    case _ =>
  }

  lemma {:induction false} DeviceLimitHolds(ops: seq<Op>, id: Id, cap: nat)
    requires forall i, limit: nat | 0 <= i < |ops| && GrantsSlot(RunOps(EMPTY_TABLES, ops[..i]), ops[i], id, limit) ::
        limit <= cap
    ensures ActiveCount(RunOps(EMPTY_TABLES, ops).activations, id) <= cap
  {
    if ops != [] {
      var n := |ops| - 1;
      forall i, limit: nat | 0 <= i < n && GrantsSlot(RunOps(EMPTY_TABLES, ops[..n][..i]), ops[..n][i], id, limit)
        ensures limit <= cap
      {
        assert ops[..n][..i] == ops[..i];
      }
      DeviceLimitHolds(ops[..n], id, cap);
      StepCount(RunOps(EMPTY_TABLES, ops[..n]), ops[n], id);
    }
  }

  // --- What an activation or a lease certifies ---------------------------------------------------------

  lemma ActivationMeans(t: Tables, input: ActivateInput, now: Time)
    requires Sound(t)
    ensures var (t', outcome) := Activate(t, input, now);
            && (!outcome.Activated? ==> t' == t)
            && (outcome.Activated? ==>
                  && t' == t.(activations := t'.activations)
                  && |t'.activations| == |t.activations| + 1 && t.activations <= t'.activations
                  && outcome.license < |t.licenses| && input.installation < |t.installations|
                  && t'.activations[|t.activations|].Holds(outcome.license, input.installation)
                  && FindActivation(t.activations, outcome.license, input.installation).None?
                  && ActiveCount(t'.activations, outcome.license) == outcome.activeDevices <= outcome.deviceLimit
                  && (input.license.Some? ==> input.license.value == outcome.license)
                  && t.licenses[outcome.license].status.LicenseActive? && !t.licenses[outcome.license].Lapsed(now)
                  && t.licenses[outcome.license].customer == t.installations[input.installation].customer
                      == input.customer
                  && t.installations[input.installation].active
                  && !Recorded(t.revocations, outcome.license))
            && (outcome.DeviceLimitReached? ==> outcome.activeDevices >= outcome.deviceLimit)
  {
    var (t', outcome) := Activate(t, input, now);
    if outcome.Activated? {
      assert t'.activations[..|t.activations|] == t.activations;
    }
  }

  // A granted activation crosses products exactly when the caller named a licence of another product.
  lemma CrossesProductsIffNamed(t: Tables, input: ActivateInput, now: Time)
    requires Activate(t, input, now).1.Activated?
    ensures var id, product := Activate(t, input, now).1.license, t.installations[input.installation].product;
            && id < |t.licenses|
            && (t.licenses[id].product != product <==>
                  input.license.Some? && input.license.value < |t.licenses|
                  && t.licenses[input.license.value].product != product)
  {
  }

  // And it does happen: an installation of product 1 is activated on a licence for product 2.
  lemma NamedLicenseCanCrossProducts()
    ensures var t := RunOps(EMPTY_TABLES,
                            [OpRegister(RegisterInput(0, Some(1), "key", None)), OpIssue(0, 2, 1, None, 0)]);
            var outcome := Activate(t, ActivateInput(0, 0, Some(0), None), 0).1;
            && outcome.Activated? && outcome.license == 0
            && t.licenses[0].product == 2 && t.installations[0].product == 1
  {
    var register, issue := OpRegister(RegisterInput(0, Some(1), "key", None)), OpIssue(0, 2, 1, None, 0);
    assert [register, issue][..1] == [register] && [register][..0] == [];
    var t1 := Perform(EMPTY_TABLES, register);
    assert t1 == EMPTY_TABLES.(installations := [Installation(0, "key", 1, None, true)]);
    var t2 := Perform(t1, issue);
    assert t2 == t1.(licenses := [License(0, 2, None, LicenseActive, 1, 0, None)]);
    assert RunOps(EMPTY_TABLES, [register]) == t1;
    assert RunOps(EMPTY_TABLES, [register, issue]) == t2;
  }

  // A lease names an active installation of the customer, activated on an active, unexpired,
  // unrevoked licence of the same customer.
  lemma LeaseFailsClosed(t: Tables, customer: Id, installation: Id, ttl: int, now: Time)
    requires Sound(t)
    ensures var (t', outcome) := IssueLease(t, customer, installation, ttl, now);
            && (!outcome.LeaseIssued? ==> t' == t)
            && (outcome.LeaseIssued? ==>
                  var lease := outcome.lease;
                  && t' == t.(leases := t.leases + [lease])
                  && lease == Lease(lease.license, installation, now, now + ttl)
                  && installation < |t.installations| && lease.license < |t.licenses|
                  && t.installations[installation].active
                  && t.licenses[lease.license].customer == t.installations[installation].customer == customer
                  && t.licenses[lease.license].status.LicenseActive? && !t.licenses[lease.license].Lapsed(now)
                  && !Recorded(t.revocations, lease.license)
                  && !DeviceRevoked(t.devices, t.installations[installation].device)
                  && FindActivation(t.activations, lease.license, installation).Some?)
  {
  }
}
