/** What a caller may conclude from each answer of a licensing transaction, and what it leaves stored. */
module LicenseOutcomes {
  import opened Wrappers
  import opened LicenseTables
  import opened LicenseRuns

  // --- Subscription sync ------------------------------------------------------------------------------

  // The licence a first sync issues: the plan's product and device limit, active from now on, without
  // an end. Nothing is issued unless cloud is granted.
  lemma FirstSyncMeans(t: Tables, customer: Id, sub: string, plan: Plan, status: SubscriptionStatus, now: Time)
    requires forall l | l in t.licenses :: !(l.customer == customer && l.subscription == Some(sub))
    ensures var t' := SyncLicense(t, customer, sub, Some(plan), status, now);
            && (status.Active? || status.Trialing? <==> t' != t)
            && (t' != t ==>
                  && |t'.licenses| == |t.licenses| + 1
                  && var row := t'.licenses[|t.licenses|];
                  && t' == t.(licenses := t.licenses + [row])
                  && row.customer == customer && row.subscription == Some(sub) && row.status.LicenseActive?
                  && row.product == plan.product && row.deviceLimit == plan.deviceLimit
                  && row.issuedAt == now && row.expiresAt == None)
  {
    assert FindLinked(t.licenses, customer, sub).None?;
  }

  // What a later sync makes of the linked row, one subscription status at a time.
  predicate Follows(row: License, row': License, status: SubscriptionStatus, deviceLimit: int, now: Time) {
    match status
    case Active | Trialing =>
      row' == row.(status := LicenseActive, deviceLimit := deviceLimit,
                   expiresAt := if row.status.LicenseActive? then row.expiresAt else None)
    case PastDue => row' == row
    case Unpaid | Incomplete | Paused =>
      row' == if row.status.LicenseActive? then row.(status := LicenseSuspended) else row
    case Canceled =>
      row' == if row.status.LicenseExpired? then row
              else row.(status := LicenseExpired,
                        expiresAt := if row.expiresAt.Some? then row.expiresAt else Some(now))
  }

  // Granting cloud reactivates a suspended or expired licence, drops its end and renews its device
  // limit; anything else keeps the limit. A revoked licence and every other row stay as they were.
  lemma LaterSyncMeans(t: Tables, customer: Id, sub: string, plan: Plan, status: SubscriptionStatus, now: Time, i: nat)
    requires OneLinked(t.licenses)
    requires i < |t.licenses| && t.licenses[i].customer == customer && t.licenses[i].subscription == Some(sub)
    ensures var t' := SyncLicense(t, customer, sub, Some(plan), status, now);
            && |t'.licenses| == |t.licenses| && t' == t.(licenses := t.licenses[i := t'.licenses[i]])
            && if t.licenses[i].status.LicenseRevoked? then t' == t
               else Follows(t.licenses[i], t'.licenses[i], status, plan.deviceLimit, now)
  {
    assert t.licenses[i].LinkedTo(customer, sub);
    assert FindLinked(t.licenses, customer, sub) == Some(i);
  }

  // --- Operator issue ---------------------------------------------------------------------------------

  // The issued licence is the one the customer's next activation for the product takes, until it ends.
  lemma IssuedIsSelected(t: Tables, customer: Id, product: Id, deviceLimit: int, expiresAt: Option<Time>, now: Time,
                         later: Time)
    requires forall l | l in t.licenses :: l.issuedAt <= now
    requires expiresAt.Some? ==> later < expiresAt.value
    ensures var t' := IssueLicense(t, customer, product, deviceLimit, expiresAt, now);
            && SelectLicense(t'.licenses, customer, product, later) == Some(|t.licenses|)
            && EffectiveLimit(t'.licenses[|t.licenses|], None) == (if deviceLimit < 0 then 0 else deviceLimit)
            && t'.licenses[|t.licenses|].expiresAt == expiresAt && t'.licenses[|t.licenses|].subscription == None
            && t' == t.(licenses := t.licenses + [t'.licenses[|t.licenses|]])
  {
    var ls := IssueLicense(t, customer, product, deviceLimit, expiresAt, now).licenses;
    assert ls[..|t.licenses|] == t.licenses;
    assert forall i | 0 <= i < |t.licenses| :: t.licenses[i] in t.licenses;
  }

  // --- Registration -----------------------------------------------------------------------------------

  // Installation keys and device fingerprints name one row per customer.
  ghost predicate NamedOnce(t: Tables) {
    && (forall i, j | 0 <= i < j < |t.installations| ::
          t.installations[i].customer != t.installations[j].customer
          || t.installations[i].installKey != t.installations[j].installKey)
    && (forall i, j | 0 <= i < j < |t.devices| ::
          t.devices[i].customer != t.devices[j].customer || t.devices[i].fingerprint != t.devices[j].fingerprint)
  }

  lemma StepNamesOnce(t: Tables, op: Op)
    requires NamedOnce(t)
    ensures NamedOnce(Perform(t, op))
  {
  }

  lemma {:induction false} EveryRunNamesOnce(ops: seq<Op>)
    ensures NamedOnce(RunOps(EMPTY_TABLES, ops))
  {
    if ops != [] {
      var n := |ops| - 1;
      EveryRunNamesOnce(ops[..n]);
      StepNamesOnce(RunOps(EMPTY_TABLES, ops[..n]), ops[n]);
    }
  }

  predicate HasKey(row: Installation, input: RegisterInput) {
    row.customer == input.customer && row.installKey == input.installKey
  }

  // Registration ends with the one installation of this key active on the product asked for, new or
  // reactivated as answered, and refuses exactly an unknown or another product.
  lemma RegisterMeans(t: Tables, input: RegisterInput)
    requires NamedOnce(t)
    ensures var (t', outcome) := Register(t, input);
            && (outcome.UnknownProduct? <==> input.product.None?)
            && (outcome.ProductMismatch? <==>
                  input.product.Some?
                  && exists row | row in t.installations :: HasKey(row, input) && row.product != input.product.value)
            && (!outcome.Registered? ==> t' == t)
            && (outcome.Registered? ==>
                  && outcome.id < |t'.installations| && t'.installations[outcome.id].active
                  && Some(t'.installations[outcome.id].product) == input.product
                  && (forall i: nat | i < |t'.installations| ::
                        HasKey(t'.installations[i], input) <==> i == outcome.id)
                  && (outcome.created <==> outcome.id == |t.installations|)
                  && |t'.installations| == |t.installations| + (if outcome.created then 1 else 0)
                  && (outcome.reactivated <==> !outcome.created && !t.installations[outcome.id].active)
                  && (forall i | 0 <= i < |t.installations| && i != outcome.id ::
                        t'.installations[i] == t.installations[i])
                  && t' == t.(installations := t'.installations, devices := t'.devices))
  {
    var (t', outcome) := Register(t, input);
    var found := FindInstallation(t.installations, input.customer, input.installKey);
    if found.Some? { assert t.installations[found.value] in t.installations; }
  }

  // A fingerprint links the installation to its one device, which is never un-revoked; without one the
  // installation keeps the device it had.
  lemma RegisterLinksDevice(t: Tables, input: RegisterInput)
    requires NamedOnce(t) && Register(t, input).1.Registered?
    ensures var (t', outcome) := Register(t, input);
            var device := t'.installations[outcome.id].device;
            && t.devices <= t'.devices
            && (input.fingerprint.None? ==>
                  && t'.devices == t.devices
                  && device == if outcome.created then None else t.installations[outcome.id].device)
            && (input.fingerprint.Some? ==>
                  && device.Some? && device.value < |t'.devices|
                  && t'.devices[device.value].fingerprint == input.fingerprint.value
                  && t'.devices[device.value].customer == input.customer
                  && t'.devices == if device.value < |t.devices| then t.devices
                                   else t.devices + [Device(input.customer, input.fingerprint.value, false)])
  {
  }

  // --- Activation -------------------------------------------------------------------------------------

  predicate Owned(t: Tables, customer: Id, installation: Id) {
    installation < |t.installations| && t.installations[installation].customer == customer
  }

  predicate OnRevokedDevice(t: Tables, installation: Id)
    requires installation < |t.installations|
  {
    var device := t.installations[installation].device;
    device.Some? && device.value < |t.devices| && t.devices[device.value].revoked
  }

  // The installation is the customer's, active, and on no revoked device.
  predicate Ready(t: Tables, customer: Id, installation: Id) {
    Owned(t, customer, installation) && t.installations[installation].active && !OnRevokedDevice(t, installation)
  }

  predicate Ended(row: License, now: Time) {
    row.expiresAt.Some? && row.expiresAt.value <= now
  }

  // A revocation on record for the licence as a whole, for the installation or for its device.
  predicate Denied(t: Tables, license: Id, installation: Id)
    requires installation < |t.installations|
  {
    var device := t.installations[installation].device;
    exists r | r in t.revocations ::
      || (r.license == Some(license) && r.installation == None && r.device == None)
      || r.installation == Some(installation)
      || (device.Some? && r.device == device)
  }

  // The licence the activation is about: the one named, or the one selected for the product.
  predicate Chosen(t: Tables, input: ActivateInput, id: Id, now: Time) {
    && Ready(t, input.customer, input.installation) && id < |t.licenses|
    && (input.license.Some? ==> id == input.license.value && t.licenses[id].customer == input.customer)
    && (input.license.None? ==>
          SelectLicense(t.licenses, input.customer, t.installations[input.installation].product, now) == Some(id))
  }

  lemma DeniedIsBlocked(t: Tables, license: Id, installation: Id)
    requires installation < |t.installations|
    ensures RevocationBlocks(t.revocations, license, installation, t.installations[installation].device)
            <==> Denied(t, license, installation)
  {
    var device := t.installations[installation].device;
    if RevocationBlocks(t.revocations, license, installation, device) {
      var i :| 0 <= i < |t.revocations|
        && (t.revocations[i].WholeLicense(license) || t.revocations[i].installation == Some(installation)
            || (device.Some? && t.revocations[i].device == device));
      assert t.revocations[i] in t.revocations;
    }
  }

  // The refusals before a licence is looked at, each exactly in its case.
  lemma ActivationGates(t: Tables, input: ActivateInput, now: Time)
    ensures var outcome := Activate(t, input, now).1;
            var owned := Owned(t, input.customer, input.installation);
            && (outcome.InstallationNotFound? <==> !owned)
            && (outcome.InstallationDeactivated? <==> owned && !t.installations[input.installation].active)
            && (owned && t.installations[input.installation].active && OnRevokedDevice(t, input.installation) ==>
                  outcome.RevocationBlocked?)
            && (outcome.LicenseNotFound? <==>
                  Ready(t, input.customer, input.installation) && input.license.Some?
                  && !(input.license.value < |t.licenses|
                       && t.licenses[input.license.value].customer == input.customer))
            && (outcome.NoActiveLicense? <==>
                  && Ready(t, input.customer, input.installation) && input.license.None?
                  && forall i | 0 <= i < |t.licenses| ::
                       !(t.licenses[i].customer == input.customer && t.licenses[i].status.LicenseActive?
                         && t.licenses[i].product == t.installations[input.installation].product
                         && !Ended(t.licenses[i], now)))
  {
  }

  // And what happens once there is a licence: it must be active, not ended and not denied; a pair
  // already active is answered as it is; otherwise a slot is granted while fewer than the limit are
  // taken, the subscription policy's limit when there is one and else the licence's own.
  lemma ActivationDecides(t: Tables, input: ActivateInput, id: Id, now: Time)
    requires Chosen(t, input, id, now)
    ensures var outcome, row := Activate(t, input, now).1, t.licenses[id];
            var usable := row.status.LicenseActive? && !Ended(row, now) && !Denied(t, id, input.installation);
            var limit := if input.policyLimit.Some? then input.policyLimit.value else row.deviceLimit;
            var taken := ActiveCount(t.activations, id);
            var paired := exists a | a in t.activations ::
                            a.active && a.license == id && a.installation == input.installation;
            && (outcome.RevocationBlocked? <==>
                  row.status.LicenseRevoked?
                  || (row.status.LicenseActive? && !Ended(row, now) && Denied(t, id, input.installation)))
            && (outcome == LicenseNotActive(LicenseSuspended) <==> row.status.LicenseSuspended?)
            && (outcome == LicenseNotActive(LicenseExpired) <==>
                  row.status.LicenseExpired? || (row.status.LicenseActive? && Ended(row, now)))
            && (outcome.AlreadyActive? <==> usable && paired)
            && (outcome.DeviceLimitReached? <==> usable && !paired && limit <= taken)
            && (outcome.Activated? <==> usable && !paired && taken < limit)
  {
    DeniedIsBlocked(t, id, input.installation);
    var found := FindActivation(t.activations, id, input.installation);
    if found.Some? { assert t.activations[found.value] in t.activations; }
  }

  // Asked again, a granted activation is answered as it is and takes no second slot.
  lemma ActivationRepeats(t: Tables, input: ActivateInput, now: Time)
    requires Activate(t, input, now).1.Activated?
    ensures var (t', outcome) := Activate(t, input, now);
            Activate(t', input, now) == (t', AlreadyActive(outcome.activation, outcome.license))
  {
    var (t', outcome) := Activate(t, input, now);
    assert t'.activations[|t'.activations| - 1].Holds(outcome.license, input.installation);
    assert FindActivation(t'.activations, outcome.license, input.installation) == Some(|t.activations|);
  }

  // --- Deactivation -----------------------------------------------------------------------------------

  // How many slots of a licence an installation takes.
  function SlotsHeld(acts: seq<Activation>, license: Id, installation: Id): nat {
    if acts == [] then 0
    else
      var last := acts[|acts| - 1];
      SlotsHeld(acts[..|acts| - 1], license, installation) + (if last.Holds(license, installation) then 1 else 0)
  }

  lemma {:induction false} ReleasingFreesHeld(acts: seq<Activation>, ids: set<Id>, license: Id, installation: Id)
    requires forall i: nat | i < |acts| :: i in ids <==> acts[i].active && acts[i].installation == installation
    ensures ActiveCount(ReleaseWhere(acts, ids), license)
         == ActiveCount(acts, license) - SlotsHeld(acts, license, installation)
  {
    if acts != [] {
      var n := |acts| - 1;
      assert ReleaseWhere(acts, ids)[..n] == ReleaseWhere(acts[..n], ids);
      ReleasingFreesHeld(acts[..n], ids, license, installation);
    }
  }

  // The installation and every activation on it end inactive, each licence gets back exactly the slots
  // the installation took, and nothing else moves.
  lemma DeactivationMeans(t: Tables, customer: Id, installation: Id)
    ensures var (t', outcome) := Deactivate(t, customer, installation);
            && (outcome.UnknownInstallation? <==> !Owned(t, customer, installation))
            && (outcome.AlreadyDeactivated? <==>
                  Owned(t, customer, installation) && !t.installations[installation].active)
            && (!outcome.Deactivated? ==> t' == t)
            && (outcome.Deactivated? ==>
                  && var held := set i: nat | i < |t.activations| && t.activations[i].active
                                              && t.activations[i].installation == installation;
                  && outcome.released == |held|
                  && |t'.activations| == |t.activations| && |t'.installations| == |t.installations|
                  && t' == t.(installations := t'.installations, activations := t'.activations)
                  && (forall i | 0 <= i < |t.installations| ::
                        t'.installations[i] == if i == installation then t.installations[i].(active := false)
                                               else t.installations[i])
                  && (forall i: nat | i < |t.activations| ::
                        t'.activations[i] == if i in held then t.activations[i].(active := false)
                                             else t.activations[i])
                  && forall license: Id ::
                       ActiveCount(t'.activations, license)
                       == ActiveCount(t.activations, license) - SlotsHeld(t.activations, license, installation))
  {
    var held := OnInstallation(t.activations, installation);
    assert held == set i: nat | i < |t.activations| && t.activations[i].active
                                && t.activations[i].installation == installation;
    forall license: Id
      ensures ActiveCount(ReleaseWhere(t.activations, held), license)
           == ActiveCount(t.activations, license) - SlotsHeld(t.activations, license, installation)
    {
      ReleasingFreesHeld(t.activations, held, license, installation);
    }
  }

  // --- Offline leases ---------------------------------------------------------------------------------

  // Each answer of a lease request exactly in its case; the licence is that of the installation's
  // latest activation.
  lemma LeaseDecides(t: Tables, customer: Id, installation: Id, ttl: int, now: Time)
    requires SameOwner(t)
    ensures var outcome := IssueLease(t, customer, installation, ttl, now).1;
            var owned, ready := Owned(t, customer, installation), Ready(t, customer, installation);
            var latest := LatestActivation(t.activations, installation);
            && (outcome.LeaseInstallationNotFound? <==> !owned)
            && (outcome.LeaseInstallationDeactivated? <==> owned && !t.installations[installation].active)
            && (outcome.NoActiveActivation? <==>
                  && ready
                  && forall i | 0 <= i < |t.activations| ::
                       !(t.activations[i].active && t.activations[i].installation == installation))
            && (ready && latest.Some? ==> LeaseFollowsLicense(t, t.activations[latest.value].license, installation, now,
                                                              outcome))
            && (owned && t.installations[installation].active && OnRevokedDevice(t, installation) ==>
                  outcome.LeaseRevocationBlocked?)
  {
    var latest := LatestActivation(t.activations, installation);
    if latest.Some? && Owned(t, customer, installation) {
      DeniedIsBlocked(t, t.activations[latest.value].license, installation);
    }
  }

  predicate LeaseFollowsLicense(t: Tables, license: Id, installation: Id, now: Time, outcome: LeaseOutcome)
    requires installation < |t.installations|
  {
    && license < |t.licenses|
    && var row := t.licenses[license];
    && (outcome.LeaseIssued? <==>
          row.status.LicenseActive? && !Ended(row, now) && !Denied(t, license, installation))
    && (outcome.LeaseRevocationBlocked? <==>
          row.status.LicenseRevoked?
          || (row.status.LicenseActive? && !Ended(row, now) && Denied(t, license, installation)))
    && (outcome == LeaseLicenseNotActive(LicenseSuspended) <==> row.status.LicenseSuspended?)
    && (outcome == LeaseLicenseNotActive(LicenseExpired) <==>
          row.status.LicenseExpired? || (row.status.LicenseActive? && Ended(row, now)))
    && (outcome.LeaseIssued? ==> outcome.lease.license == license && outcome.lease.installation == installation)
  }
}
