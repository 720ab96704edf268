/**
  Licences, installations, activations, revocations and leases as table rows, and the
  transactions on them as reference functions. A row's id is its position in its table.
 */
module LicenseTables {
  import opened Wrappers

  type Id = nat
  type Time = int

  // --- Pure rules --------------------------------------------------------------------------

  datatype SubscriptionStatus = Trialing | Active | PastDue | Unpaid | Canceled | Incomplete | Paused {
    predicate GrantsCloud() {
      Trialing? || Active?
    }
  }

  datatype LicenseStatus = LicenseActive | LicenseSuspended | LicenseRevoked | LicenseExpired

  datatype SyncAction = Issue | Reactivate | Suspend | Expire

  // How a subscription-linked licence must change when the subscription's status is `sub`.
  function LicenseSyncAction(existing: Option<LicenseStatus>, sub: SubscriptionStatus): Option<SyncAction> {
    match existing
    case None => if sub.GrantsCloud() then Some(Issue) else None
    case Some(LicenseRevoked) => None
    case Some(LicenseActive) =>
      (match sub
       case Active | Trialing | PastDue => None
       case Canceled => Some(Expire)
       case Unpaid | Paused | Incomplete => Some(Suspend))
    case Some(LicenseSuspended) =>
      (match sub
       case Active | Trialing => Some(Reactivate)
       case Canceled => Some(Expire)
       case PastDue | Unpaid | Paused | Incomplete => None)
    case Some(LicenseExpired) => if sub.GrantsCloud() then Some(Reactivate) else None
  }

  predicate CanActivateDevice(activeDevices: nat, deviceLimit: nat) {
    activeDevices < deviceLimit
  }

  // --- Rows ----------------------------------------------------------------------------------

  datatype License = License(customer: Id, product: Id, subscription: Option<string>, status: LicenseStatus,
                             deviceLimit: int, issuedAt: Time, expiresAt: Option<Time>) {
    predicate Lapsed(now: Time) {
      expiresAt.Some? && expiresAt.value <= now
    }

    predicate LinkedTo(owner: Id, sub: string) {
      customer == owner && subscription == Some(sub)
    }
  }

  datatype Revocation = Revocation(license: Option<Id>, installation: Option<Id>, device: Option<Id>) {
    predicate WholeLicense(id: Id) {
      license == Some(id) && installation.None? && device.None?
    }
  }

  datatype Device = Device(customer: Id, fingerprint: string, revoked: bool)

  datatype Installation = Installation(customer: Id, installKey: string, product: Id, device: Option<Id>, active: bool)

  datatype Activation = Activation(license: Id, installation: Id, device: Option<Id>, active: bool, activatedAt: Time) {
    predicate Holds(lic: Id, inst: Id) {
      active && license == lic && installation == inst
    }
  }

  datatype Lease = Lease(license: Id, installation: Id, issuedAt: Time, expiresAt: Time)

  datatype Tables = Tables(licenses: seq<License>, revocations: seq<Revocation>, devices: seq<Device>,
                           installations: seq<Installation>, activations: seq<Activation>, leases: seq<Lease>)

  const EMPTY_TABLES := Tables([], [], [], [], [], [])

  // --- Queries ---------------------------------------------------------------------------------

  function FindLinked(ls: seq<License>, customer: Id, sub: string): (id: Option<Id>)
    ensures id.Some? ==> id.value < |ls| && ls[id.value].LinkedTo(customer, sub)
    ensures id.None? ==> forall i | 0 <= i < |ls| :: !ls[i].LinkedTo(customer, sub)
  {
    if ls == [] then None
    else if ls[|ls| - 1].LinkedTo(customer, sub) then Some(|ls| - 1)
    else FindLinked(ls[..|ls| - 1], customer, sub)
  }

  predicate Selectable(l: License, customer: Id, product: Id, now: Time) {
    l.customer == customer && l.product == product && l.status.LicenseActive? && !l.Lapsed(now)
  }

  // The most recently issued usable licence for the product.
  function SelectLicense(ls: seq<License>, customer: Id, product: Id, now: Time): (id: Option<Id>)
    ensures id.None? <==> forall i | 0 <= i < |ls| :: !Selectable(ls[i], customer, product, now)
    ensures id.Some? ==> id.value < |ls| && Selectable(ls[id.value], customer, product, now)
    ensures id.Some? ==> forall i | 0 <= i < |ls| && Selectable(ls[i], customer, product, now) ::
                           ls[i].issuedAt <= ls[id.value].issuedAt
  {
    if ls == [] then None
    else
      var n := |ls| - 1;
      var earlier := SelectLicense(ls[..n], customer, product, now);
      assert ls == ls[..n] + [ls[n]];
      if !Selectable(ls[n], customer, product, now) then earlier
      else if earlier.Some? && ls[earlier.value].issuedAt > ls[n].issuedAt then earlier
      else Some(n)
  }

  // A revocation of the whole licence, of the installation, or of its device.
  predicate RevocationBlocks(rs: seq<Revocation>, license: Id, installation: Id, device: Option<Id>) {
    exists i | 0 <= i < |rs| ::
      rs[i].WholeLicense(license) || rs[i].installation == Some(installation)
          || (device.Some? && rs[i].device == device)
  }

  function ActiveCount(acts: seq<Activation>, license: Id): nat {
    if acts == [] then 0
    else
      var last := acts[|acts| - 1];
      ActiveCount(acts[..|acts| - 1], license) + (if last.active && last.license == license then 1 else 0)
  }

  function FindActivation(acts: seq<Activation>, license: Id, installation: Id): (id: Option<Id>)
    ensures id.Some? ==> id.value < |acts| && acts[id.value].Holds(license, installation)
    ensures id.None? ==> forall i | 0 <= i < |acts| :: !acts[i].Holds(license, installation)
  {
    if acts == [] then None
    else if acts[|acts| - 1].Holds(license, installation) then Some(|acts| - 1)
    else FindActivation(acts[..|acts| - 1], license, installation)
  }

  // The installation's most recent active activation.
  function LatestActivation(acts: seq<Activation>, installation: Id): (id: Option<Id>)
    ensures id.Some? ==> id.value < |acts| && acts[id.value].active && acts[id.value].installation == installation
    ensures id.None? ==> forall i | 0 <= i < |acts| :: !(acts[i].active && acts[i].installation == installation)
    ensures id.Some? ==> forall i | 0 <= i < |acts| && acts[i].active && acts[i].installation == installation ::
                           acts[i].activatedAt <= acts[id.value].activatedAt
  {
    if acts == [] then None
    else
      var n := |acts| - 1;
      var earlier := LatestActivation(acts[..n], installation);
      assert acts == acts[..n] + [acts[n]];
      if !(acts[n].active && acts[n].installation == installation) then earlier
      else if earlier.Some? && acts[earlier.value].activatedAt > acts[n].activatedAt then earlier
      else Some(n)
  }

  function FindDevice(ds: seq<Device>, customer: Id, fingerprint: string): (id: Option<Id>)
    ensures id.Some? ==> id.value < |ds| && ds[id.value].customer == customer && ds[id.value].fingerprint == fingerprint
    ensures id.None? ==> forall i | 0 <= i < |ds| :: !(ds[i].customer == customer && ds[i].fingerprint == fingerprint)
  {
    if ds == [] then None
    else if ds[|ds| - 1].customer == customer && ds[|ds| - 1].fingerprint == fingerprint then Some(|ds| - 1)
    else FindDevice(ds[..|ds| - 1], customer, fingerprint)
  }

  function FindInstallation(rows: seq<Installation>, customer: Id, installKey: string): (id: Option<Id>)
    ensures id.Some? ==>
              id.value < |rows| && rows[id.value].customer == customer && rows[id.value].installKey == installKey
    ensures id.None? ==> forall i | 0 <= i < |rows| ::
        !(rows[i].customer == customer && rows[i].installKey == installKey)
  {
    if rows == [] then None
    else if rows[|rows| - 1].customer == customer && rows[|rows| - 1].installKey == installKey then Some(|rows| - 1)
    else FindInstallation(rows[..|rows| - 1], customer, installKey)
  }

  predicate DeviceRevoked(ds: seq<Device>, device: Option<Id>) {
    device.Some? && device.value < |ds| && ds[device.value].revoked
  }

  // --- Subscription sync, admin issue and revoke -------------------------------------------------

  // A plan version's product and the device limit its policy or catalogue entry resolves to.
  datatype Plan = Plan(product: Id, deviceLimit: nat)

  // The linked licence's row after the sync.
  function Synced(row: License, sub: SubscriptionStatus, deviceLimit: int, now: Time): License {
    match LicenseSyncAction(Some(row.status), sub)
    case Some(Reactivate) => row.(status := LicenseActive, deviceLimit := deviceLimit, expiresAt := None)
    case Some(Suspend) => row.(status := LicenseSuspended)
    case Some(Expire) =>
      row.(status := LicenseExpired, expiresAt := if row.expiresAt.Some? then row.expiresAt else Some(now))
    case _ => if row.status.LicenseActive? && sub.GrantsCloud() then row.(deviceLimit := deviceLimit) else row
  }

  function SyncLicense(t: Tables, customer: Id, sub: string, plan: Option<Plan>, status: SubscriptionStatus,
                       now: Time): Tables {
    if plan.None? then t
    else
      match FindLinked(t.licenses, customer, sub)
      case Some(id) => t.(licenses := t.licenses[id := Synced(t.licenses[id], status, plan.value.deviceLimit, now)])
      case None =>
        if LicenseSyncAction(None, status).None? then t
        else
          var row := License(customer, plan.value.product, Some(sub), LicenseActive, plan.value.deviceLimit, now, None);
          t.(licenses := t.licenses + [row])
  }

  function IssueLicense(t: Tables, customer: Id, product: Id, deviceLimit: int, expiresAt: Option<Time>,
                        now: Time): Tables {
    t.(licenses := t.licenses + [License(customer, product, None, LicenseActive, deviceLimit, now, expiresAt)])
  }

  datatype RevokeOutcome = LicenseUnknown | AlreadyRevoked | NowRevoked

  function RevokeLicense(t: Tables, id: Id): (Tables, RevokeOutcome) {
    if id >= |t.licenses| then (t, LicenseUnknown)
    else if t.licenses[id].status.LicenseRevoked? then (t, AlreadyRevoked)
    else
      (t.(licenses := t.licenses[id := t.licenses[id].(status := LicenseRevoked)],
          revocations := t.revocations + [Revocation(Some(id), None, None)]),
       NowRevoked)
  }

  // --- Installations -------------------------------------------------------------------------------

  datatype RegisterInput = RegisterInput(customer: Id, product: Option<Id>, installKey: string,
                                         fingerprint: Option<string>)

  datatype RegisterOutcome = UnknownProduct | ProductMismatch | Registered(id: Id, created: bool, reactivated: bool)

  function UpsertDevice(ds: seq<Device>, customer: Id, fingerprint: Option<string>): (seq<Device>, Option<Id>) {
    match fingerprint
    case None => (ds, None)
    case Some(f) =>
      match FindDevice(ds, customer, f)
      case Some(id) => (ds, Some(id))
      case None => (ds + [Device(customer, f, false)], Some(|ds|))
  }

  function Register(t: Tables, input: RegisterInput): (Tables, RegisterOutcome) {
    if input.product.None? then (t, UnknownProduct)
    else
      var (ds, device) := UpsertDevice(t.devices, input.customer, input.fingerprint);
      match FindInstallation(t.installations, input.customer, input.installKey)
      case None =>
        var row := Installation(input.customer, input.installKey, input.product.value, device, true);
        (t.(devices := ds, installations := t.installations + [row]), Registered(|t.installations|, true, false))
      case Some(id) =>
        var prior := t.installations[id];
        if prior.product != input.product.value then (t, ProductMismatch)
        else
          var row := prior.(active := true, device := if device.Some? then device else prior.device);
          (t.(devices := ds, installations := t.installations[id := row]), Registered(id, false, !prior.active))
  }

  datatype ActivateInput = ActivateInput(customer: Id, installation: Id, license: Option<Id>, policyLimit: Option<int>)

  datatype ActivateOutcome =
    | InstallationNotFound
    | InstallationDeactivated
    | LicenseNotFound
    | NoActiveLicense
    | LicenseNotActive(status: LicenseStatus)
    | RevocationBlocked
    | DeviceLimitReached(deviceLimit: nat, activeDevices: nat)
    | AlreadyActive(activation: Id, license: Id)
    | Activated(activation: Id, license: Id, deviceLimit: nat, activeDevices: nat)

  // The subscription policy's limit when there is one, else the licence's own; negative counts as zero.
  function EffectiveLimit(row: License, policyLimit: Option<int>): nat {
    var limit := policyLimit.GetOr(row.deviceLimit);
    if limit < 0 then 0 else limit
  }

  function ActivateOn(t: Tables, input: ActivateInput, id: Id, now: Time): (Tables, ActivateOutcome)
    requires input.installation < |t.installations| && id < |t.licenses|
  {
    var row, inst := t.licenses[id], t.installations[input.installation];
    if row.status.LicenseRevoked? then (t, RevocationBlocked)
    else if !row.status.LicenseActive? then (t, LicenseNotActive(row.status))
    else if row.Lapsed(now) then (t, LicenseNotActive(LicenseExpired))
    else if RevocationBlocks(t.revocations, id, input.installation, inst.device) then (t, RevocationBlocked)
    else
      var limit, count := EffectiveLimit(row, input.policyLimit), ActiveCount(t.activations, id);
      match FindActivation(t.activations, id, input.installation)
      case Some(a) => (t, AlreadyActive(a, id))
      case None =>
        if !CanActivateDevice(count, limit) then (t, DeviceLimitReached(limit, count))
        else
          (t.(activations := t.activations + [Activation(id, input.installation, inst.device, true, now)]),
           Activated(|t.activations|, id, limit, count + 1))
  }

  function Activate(t: Tables, input: ActivateInput, now: Time): (Tables, ActivateOutcome) {
    if input.installation >= |t.installations| || t.installations[input.installation].customer != input.customer then
      (t, InstallationNotFound)
    else
      var inst := t.installations[input.installation];
      if !inst.active then (t, InstallationDeactivated)
      else if DeviceRevoked(t.devices, inst.device) then (t, RevocationBlocked)
      else
        match input.license
        case Some(id) =>
          // An explicit licence is matched by owner only, whatever product the installation runs.
          if id >= |t.licenses| || t.licenses[id].customer != input.customer then (t, LicenseNotFound)
          else ActivateOn(t, input, id, now)
        case None =>
          match SelectLicense(t.licenses, input.customer, inst.product, now)
          case None => (t, NoActiveLicense)
          case Some(id) => ActivateOn(t, input, id, now)
  }

  datatype DeactivateOutcome = UnknownInstallation | AlreadyDeactivated | Deactivated(released: nat)

  function ReleaseWhere(acts: seq<Activation>, ids: set<Id>): (out: seq<Activation>)
    ensures |out| == |acts|
  {
    seq(|acts|, i requires 0 <= i < |acts| => if i in ids then acts[i].(active := false) else acts[i])
  }

  function OnInstallation(acts: seq<Activation>, installation: Id): set<Id> {
    set i: nat | i < |acts| && acts[i].installation == installation && acts[i].active
  }

  function Deactivate(t: Tables, customer: Id, installation: Id): (Tables, DeactivateOutcome) {
    if installation >= |t.installations| || t.installations[installation].customer != customer
        then (t, UnknownInstallation)
    else if !t.installations[installation].active then (t, AlreadyDeactivated)
    else
      var held := OnInstallation(t.activations, installation);
      (t.(installations := t.installations[installation := t.installations[installation].(active := false)],
          activations := ReleaseWhere(t.activations, held)),
       Deactivated(|held|))
  }

  // --- Offline leases --------------------------------------------------------------------------------

  datatype LeaseOutcome =
    | LeaseInstallationNotFound
    | LeaseInstallationDeactivated
    | LeaseRevocationBlocked
    | NoActiveActivation
    | LeaseLicenseNotActive(status: LicenseStatus)
    | LeaseIssued(lease: Lease)

  function IssueLease(t: Tables, customer: Id, installation: Id, ttl: int, now: Time): (Tables, LeaseOutcome) {
    if installation >= |t.installations| || t.installations[installation].customer != customer then
      (t, LeaseInstallationNotFound)
    else
      var inst := t.installations[installation];
      if !inst.active then (t, LeaseInstallationDeactivated)
      else if DeviceRevoked(t.devices, inst.device) then (t, LeaseRevocationBlocked)
      else
        match LatestActivation(t.activations, installation)
        case None => (t, NoActiveActivation)
        case Some(a) =>
          var id := t.activations[a].license;
          if id >= |t.licenses| then (t, NoActiveActivation)
          else
            var row := t.licenses[id];
            if row.status.LicenseRevoked? then (t, LeaseRevocationBlocked)
            else if !row.status.LicenseActive? then (t, LeaseLicenseNotActive(row.status))
            else if row.Lapsed(now) then (t, LeaseLicenseNotActive(LicenseExpired))
            else if RevocationBlocks(t.revocations, id, installation, inst.device) then (t, LeaseRevocationBlocked)
            else
              var lease := Lease(id, installation, now, now + ttl);
              (t.(leases := t.leases + [lease]), LeaseIssued(lease))
  }

  // --- Account deletion -------------------------------------------------------------------------------

  function Revocable(ls: seq<License>, customer: Id): set<Id> {
    set i: nat | i < |ls| && ls[i].customer == customer && !ls[i].status.LicenseRevoked?
  }

  function RevokeRows(ls: seq<License>, customer: Id): seq<License> {
    seq(|ls|, i requires 0 <= i < |ls| => if ls[i].customer == customer then ls[i].(status := LicenseRevoked)
        else ls[i])
  }

  // One licence-wide revocation per licence the deletion newly revokes, in row order.
  function NewRevocations(ls: seq<License>, customer: Id): seq<Revocation> {
    if ls == [] then []
    else
      var n := |ls| - 1;
      NewRevocations(ls[..n], customer)
      + (if ls[n].customer == customer && !ls[n].status.LicenseRevoked? then [Revocation(Some(n), None, None)] else [])
  }

  function OwnedActive(t: Tables, customer: Id): set<Id> {
    set i: nat | i < |t.activations| && t.activations[i].active
                 && t.activations[i].license < |t.licenses| && t.licenses[t.activations[i].license].customer == customer
  }

  // The licensing part of an executed deletion: devices and licences revoked, installations
  // deactivated, activations released.
  function Freeze(t: Tables, customer: Id): Tables {
    t.(licenses := RevokeRows(t.licenses, customer),
       revocations := t.revocations + NewRevocations(t.licenses, customer),
       devices := seq(|t.devices|, i requires 0 <= i < |t.devices| =>
                    if t.devices[i].customer == customer then t.devices[i].(revoked := true) else t.devices[i]),
       installations := seq(|t.installations|, i requires 0 <= i < |t.installations| =>
                          if t.installations[i].customer == customer then t.installations[i].(active := false)
                          else t.installations[i]),
       activations := ReleaseWhere(t.activations, OwnedActive(t, customer)))
  }
}
