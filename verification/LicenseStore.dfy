/**
  The licensing repository: one method per transaction, statement by statement over the stored
  tables, each proved to leave the rows its reference function in `LicenseTables` says and to keep
  what every run of them keeps.
 */
module LicenseStore {
  import opened Wrappers
  import opened LicenseTables
  import opened LicenseRuns

  class LicenseRepository {
    var licenses: seq<License>
    var revocations: seq<Revocation>
    var devices: seq<Device>
    var installations: seq<Installation>
    var activations: seq<Activation>
    var leases: seq<Lease>

    function Rows(): Tables
      reads this
    {
      Tables(licenses, revocations, devices, installations, activations, leases)
    }

    ghost predicate Valid()
      reads this
    {
      Sound(Rows())
    }

    constructor ()
      ensures Valid() && Rows() == EMPTY_TABLES
    {
      licenses, revocations, devices, installations, activations, leases := [], [], [], [], [], [];
    }

    method SyncLicenseForSubscription(customer: Id, sub: string, plan: Option<Plan>, status: SubscriptionStatus,
                                      now: Time)
      requires Valid()
      modifies this
      ensures Valid()
      ensures Rows() == SyncLicense(old(Rows()), customer, sub, plan, status, now)
    {
      SyncKeepsSound(Rows(), customer, sub, plan, status, now);
      if plan.None? {
        return;
      }
      var deviceLimit := plan.value.deviceLimit;
      var existing := FindLinked(licenses, customer, sub);
      var action := LicenseSyncAction(if existing.Some? then Some(licenses[existing.value].status) else None, status);
      match (existing, action)
      case (None, Some(Issue)) =>
        licenses := licenses + [License(customer, plan.value.product, Some(sub), LicenseActive, deviceLimit,
                                        now, None)];
      case (Some(id), Some(Reactivate)) =>
        licenses := licenses[id := licenses[id].(status := LicenseActive, deviceLimit := deviceLimit,
                                                 expiresAt := None)];
      case (Some(id), Some(Suspend)) =>
        licenses := licenses[id := licenses[id].(status := LicenseSuspended)];
      case (Some(id), Some(Expire)) =>
        var row := licenses[id];
        licenses := licenses[id := row.(status := LicenseExpired,
                                        expiresAt := if row.expiresAt.Some? then row.expiresAt else Some(now))];
      case (Some(id), None) =>
        // Plan change in good standing: refresh the limit in place.
        if licenses[id].status.LicenseActive? && status.GrantsCloud() && licenses[id].deviceLimit != deviceLimit {
          licenses := licenses[id := licenses[id].(deviceLimit := deviceLimit)];
        }
      case _ =>
    }

    method IssueByOperator(customer: Id, product: Id, deviceLimit: int, expiresAt: Option<Time>, now: Time)
      requires Valid()
      modifies this
      ensures Valid()
      ensures Rows() == IssueLicense(old(Rows()), customer, product, deviceLimit, expiresAt, now)
      ensures |licenses| == |old(licenses)| + 1 && old(licenses) <= licenses
      ensures HoldsActive(licenses, customer)
      ensures forall c, sub :: !licenses[|old(licenses)|].LinkedTo(c, sub)
    {
      StepKeepsSound(Rows(), OpIssue(customer, product, deviceLimit, expiresAt, now));
      licenses := licenses + [License(customer, product, None, LicenseActive, deviceLimit, now, expiresAt)];
    }

    method Revoke(id: Id) returns (outcome: RevokeOutcome)
      requires Valid()
      modifies this
      ensures Valid()
      ensures (Rows(), outcome) == RevokeLicense(old(Rows()), id)
      ensures outcome.LicenseUnknown? <==> id >= |licenses|
      ensures outcome.NowRevoked? <==> id < |licenses| && !old(RevokedIn(Rows(), id))
      ensures !outcome.LicenseUnknown? ==> RevokedIn(Rows(), id) && Recorded(revocations, id)
      ensures |licenses| == |old(licenses)| && forall i | 0 <= i < |licenses| && i != id ::
          licenses[i] == old(licenses)[i]
    {
      RevokeKeepsSound(Rows(), id);
      if id >= |licenses| {
        return LicenseUnknown;
      }
      if licenses[id].status.LicenseRevoked? {
        return AlreadyRevoked;
      }
      licenses := licenses[id := licenses[id].(status := LicenseRevoked)];
      revocations := revocations + [Revocation(Some(id), None, None)];
      outcome := NowRevoked;
    }

    method RegisterInstallation(input: RegisterInput) returns (outcome: RegisterOutcome)
      requires Valid()
      modifies this
      ensures Valid()
      ensures (Rows(), outcome) == Register(old(Rows()), input)
    {
      RegisterKeepsSound(Rows(), input);
      if input.product.None? {
        return UnknownProduct;
      }
      var before := devices;
      var device: Option<Id> := None;
      if input.fingerprint.Some? {
        device := FindDevice(devices, input.customer, input.fingerprint.value);
        if device.None? {
          device := Some(|devices|);
          devices := devices + [Device(input.customer, input.fingerprint.value, false)];
        }
      }
      var existing := FindInstallation(installations, input.customer, input.installKey);
      if existing.None? {
        outcome := Registered(|installations|, true, false);
        installations := installations + [Installation(input.customer, input.installKey, input.product.value,
                                                       device, true)];
        return;
      }
      var id := existing.value;
      var prior := installations[id];
      if prior.product != input.product.value {
        // The error rolls the transaction back, the device row included.
        devices := before;
        return ProductMismatch;
      }
      installations := installations[id := prior.(active := true, device := if device.Some? then device
                                                  else prior.device)];
      outcome := Registered(id, false, !prior.active);
    }

    method CountActive(license: Id) returns (count: nat)
      ensures count == ActiveCount(activations, license)
    {
      count := 0;
      var i := 0;
      while i < |activations|
        invariant 0 <= i <= |activations|
        invariant count == ActiveCount(activations[..i], license)
      {
        assert activations[..i + 1][..i] == activations[..i];
        if activations[i].active && activations[i].license == license {
          count := count + 1;
        }
        i := i + 1;
      }
      assert activations[..i] == activations;
    }

    method ActivateInstallation(input: ActivateInput, now: Time) returns (outcome: ActivateOutcome)
      requires Valid()
      modifies this
      ensures Valid()
      ensures (Rows(), outcome) == Activate(old(Rows()), input, now)
    {
      ActivateKeepsSound(Rows(), input, now);
      if input.installation >= |installations| || installations[input.installation].customer != input.customer {
        return InstallationNotFound;
      }
      var inst := installations[input.installation];
      if !inst.active {
        return InstallationDeactivated;
      }
      if DeviceRevoked(devices, inst.device) {
        return RevocationBlocked;
      }
      var license := input.license;
      if license.Some? {
        if license.value >= |licenses| || licenses[license.value].customer != input.customer {
          return LicenseNotFound;
        }
      } else {
        license := SelectLicense(licenses, input.customer, inst.product, now);
        if license.None? {
          return NoActiveLicense;
        }
      }
      var id := license.value;
      var row := licenses[id];
      if row.status.LicenseRevoked? {
        return RevocationBlocked;
      }
      if !row.status.LicenseActive? {
        return LicenseNotActive(row.status);
      }
      if row.Lapsed(now) {
        return LicenseNotActive(LicenseExpired);
      }
      if RevocationBlocks(revocations, id, input.installation, inst.device) {
        return RevocationBlocked;
      }
      var limit := EffectiveLimit(row, input.policyLimit);
      var count := CountActive(id);
      var existing := FindActivation(activations, id, input.installation);
      if existing.Some? {
        return AlreadyActive(existing.value, id);
      }
      if !CanActivateDevice(count, limit) {
        return DeviceLimitReached(limit, count);
      }
      outcome := Activated(|activations|, id, limit, count + 1);
      activations := activations + [Activation(id, input.installation, inst.device, true, now)];
    }

    // update license_activations set status = 'deactivated' where the id is in `ids`
    method ReleaseActivations(ids: set<Id>)
      modifies `activations
      ensures activations == ReleaseWhere(old(activations), ids)
    {
      var i := 0;
      while i < |activations|
        invariant 0 <= i <= |activations| == |old(activations)|
        invariant forall j | 0 <= j < i :: activations[j] == ReleaseWhere(old(activations), ids)[j]
        invariant forall j | i <= j < |activations| :: activations[j] == old(activations)[j]
      {
        if i in ids {
          activations := activations[i := activations[i].(active := false)];
        }
        i := i + 1;
      }
    }

    method DeactivateInstallation(customer: Id, installation: Id) returns (outcome: DeactivateOutcome)
      requires Valid()
      modifies this
      ensures Valid()
      ensures (Rows(), outcome) == Deactivate(old(Rows()), customer, installation)
    {
      DeactivateKeepsSound(Rows(), customer, installation);
      if installation >= |installations| || installations[installation].customer != customer {
        return UnknownInstallation;
      }
      if !installations[installation].active {
        return AlreadyDeactivated;
      }
      installations := installations[installation := installations[installation].(active := false)];
      var held := OnInstallation(activations, installation);
      ReleaseActivations(held);
      outcome := Deactivated(|held|);
    }

    method IssueOfflineLease(customer: Id, installation: Id, ttl: int, now: Time) returns (outcome: LeaseOutcome)
      requires Valid()
      modifies this
      ensures Valid()
      ensures (Rows(), outcome) == IssueLease(old(Rows()), customer, installation, ttl, now)
      ensures outcome.LeaseIssued? ==>
                var lease := outcome.lease;
                && lease.installation == installation < |installations| && installations[installation].active
                && installations[installation].customer == customer
                && lease.license < |licenses| && licenses[lease.license].customer == customer
                && licenses[lease.license].status.LicenseActive? && !Recorded(revocations, lease.license)
                && FindActivation(activations, lease.license, installation).Some?
    {
      StepKeepsSound(Rows(), OpLease(customer, installation, ttl, now));
      LeaseFailsClosed(Rows(), customer, installation, ttl, now);
      if installation >= |installations| || installations[installation].customer != customer {
        return LeaseInstallationNotFound;
      }
      var inst := installations[installation];
      if !inst.active {
        return LeaseInstallationDeactivated;
      }
      if DeviceRevoked(devices, inst.device) {
        return LeaseRevocationBlocked;
      }
      var activation := LatestActivation(activations, installation);
      if activation.None? || activations[activation.value].license >= |licenses| {
        return NoActiveActivation;
      }
      var id := activations[activation.value].license;
      var row := licenses[id];
      if row.status.LicenseRevoked? {
        return LeaseRevocationBlocked;
      }
      if !row.status.LicenseActive? {
        return LeaseLicenseNotActive(row.status);
      }
      if row.Lapsed(now) {
        return LeaseLicenseNotActive(LicenseExpired);
      }
      if RevocationBlocks(revocations, id, installation, inst.device) {
        return LeaseRevocationBlocked;
      }
      var lease := Lease(id, installation, now, now + ttl);
      leases := leases + [lease];
      outcome := LeaseIssued(lease);
    }

    // --- Account deletion, statement by statement --------------------------------------------

    method RevokeCustomerLicenses(customer: Id)
      modifies `licenses, `revocations
      ensures licenses == RevokeRows(old(licenses), customer)
      ensures revocations == old(revocations) + NewRevocations(old(licenses), customer)
    {
      ghost var before := licenses;
      var i := 0;
      while i < |licenses|
        invariant 0 <= i <= |licenses| == |before|
        invariant forall j | 0 <= j < i :: licenses[j] == RevokeRows(before, customer)[j]
        invariant forall j | i <= j < |before| :: licenses[j] == before[j]
        invariant revocations == old(revocations) + NewRevocations(before[..i], customer)
      {
        assert before[..i + 1][..i] == before[..i];
        if licenses[i].customer == customer && !licenses[i].status.LicenseRevoked? {
          licenses := licenses[i := licenses[i].(status := LicenseRevoked)];
          revocations := revocations + [Revocation(Some(i), None, None)];
        }
        i := i + 1;
      }
      assert before[..i] == before;
    }

    method FreezeCustomer(customer: Id)
      requires Valid()
      modifies this
      ensures Valid()
      ensures Rows() == Freeze(old(Rows()), customer)
    {
      FreezeKeepsSound(Rows(), customer);
      var owned := OwnedActive(Rows(), customer);
      RevokeDevices(customer);
      RevokeCustomerLicenses(customer);
      DeactivateInstallations(customer);
      ReleaseActivations(owned);
    }

    method RevokeDevices(customer: Id)
      modifies `devices
      ensures devices == Freeze(old(Rows()), customer).devices
    {
      var i := 0;
      while i < |devices|
        invariant 0 <= i <= |devices| == |old(devices)|
        invariant forall j | 0 <= j < i :: devices[j] == Freeze(old(Rows()), customer).devices[j]
        invariant forall j | i <= j < |devices| :: devices[j] == old(devices)[j]
      {
        if devices[i].customer == customer {
          devices := devices[i := devices[i].(revoked := true)];
        }
        i := i + 1;
      }
    }

    method DeactivateInstallations(customer: Id)
      modifies `installations
      ensures installations == Freeze(old(Rows()), customer).installations
    {
      var i := 0;
      while i < |installations|
        invariant 0 <= i <= |installations| == |old(installations)|
        invariant forall j | 0 <= j < i :: installations[j] == Freeze(old(Rows()), customer).installations[j]
        invariant forall j | i <= j < |installations| :: installations[j] == old(installations)[j]
      {
        if installations[i].customer == customer && installations[i].active {
          installations := installations[i := installations[i].(active := false)];
        }
        i := i + 1;
      }
    }
  }

  method Execute(repository: LicenseRepository, op: Op)
    requires repository.Valid()
    modifies repository
    ensures repository.Valid() && repository.Rows() == Perform(old(repository.Rows()), op)
  {
    match op
    case OpSync(customer, sub, plan, status, now) =>
      repository.SyncLicenseForSubscription(customer, sub, plan, status, now);
    case OpIssue(customer, product, deviceLimit, expiresAt, now) =>
      repository.IssueByOperator(customer, product, deviceLimit, expiresAt, now);
    case OpRevoke(id) => var _ := repository.Revoke(id);
    case OpRegister(input) => var _ := repository.RegisterInstallation(input);
    case OpActivate(input, now) => var _ := repository.ActivateInstallation(input, now);
    case OpDeactivate(customer, installation) => var _ := repository.DeactivateInstallation(customer, installation);
    case OpLease(customer, installation, ttl, now) =>
      var _ := repository.IssueOfflineLease(customer, installation, ttl, now);
    case OpFreeze(customer) => repository.FreezeCustomer(customer);
  }

  // Any sequence of transactions through the stored tables ends where the reference says, sound.
  method Serve(ops: seq<Op>) returns (repository: LicenseRepository)
    ensures fresh(repository) && repository.Valid()
    ensures repository.Rows() == RunOps(EMPTY_TABLES, ops)
  {
    repository := new LicenseRepository();
    for i := 0 to |ops|
      invariant fresh(repository) && repository.Valid()
      invariant repository.Rows() == RunOps(EMPTY_TABLES, ops[..i])
    {
      assert ops[..i + 1][..i] == ops[..i];
      Execute(repository, ops[i]);
    }
    assert ops[..|ops|] == ops;
  }
}
