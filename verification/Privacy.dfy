/** Account deletion: the request workflow and the transaction that executes it. */
module Privacy {
  import opened Wrappers
  import L = LicenseTables
  import C = Commerce
  import O = Overrides

  type Id = L.Id
  type Time = L.Time

  datatype DeletionStatus = Requested | Verified | CoolingOff | Processing | Completed | Rejected | Canceled {
    predicate Open() {
      !Completed? && !Rejected? && !Canceled?
    }
  }

  // The operator's forward transition; processing advances only through execution.
  function NextState(current: DeletionStatus): Option<DeletionStatus> {
    match current
    case Requested => Some(Verified)
    case Verified => Some(CoolingOff)
    case CoolingOff => Some(Processing)
    case _ => None
  }

  // Customers may cancel, and operators reject, until processing begins.
  predicate CanStop(current: DeletionStatus) {
    current.Requested? || current.Verified? || current.CoolingOff?
  }

  datatype Request = Request(customer: Id, status: DeletionStatus, coolingOffUntil: Option<Time>)

  // The audit row of one transition; entering cooling-off records the window it was given.
  datatype Entry = Entry(request: Id, before: DeletionStatus, after: DeletionStatus, at: Time, window: int)

  datatype ProfileStatus = ProfilePending | ProfileActive | ProfileSuspended | ProfileClosed | ProfileAnonymized

  datatype Profile = Profile(status: ProfileStatus, displayName: Option<string>, countryCode: Option<string>,
                             timezone: Option<string>, emails: set<string>)

  datatype Account = Account(requests: seq<Request>, history: seq<Entry>, profiles: map<Id, Profile>,
                             overrides: seq<O.Override>, store: C.Store)

  datatype DeletionError = NotFound | InvalidState | CoolingOffActive | SubscriptionStillActive

  datatype DeletionOutcome = Moved(id: Id) | Unchanged(id: Id) | Refused(error: DeletionError)

  function FindOpen(rs: seq<Request>, customer: Id): (id: Option<Id>)
    ensures id.Some? ==> id.value < |rs| && rs[id.value].customer == customer && rs[id.value].status.Open()
    ensures id.None? ==> forall i | 0 <= i < |rs| :: !(rs[i].customer == customer && rs[i].status.Open())
  {
    if rs == [] then None
    else if rs[|rs| - 1].customer == customer && rs[|rs| - 1].status.Open() then Some(|rs| - 1)
    else FindOpen(rs[..|rs| - 1], customer)
  }

  function RequestDeletion(a: Account, customer: Id): (Account, DeletionOutcome) {
    match FindOpen(a.requests, customer)
    case Some(id) => (a, Unchanged(id))
    case None => (a.(requests := a.requests + [Request(customer, Requested, None)]), Moved(|a.requests|))
  }

  // Set the status, stamp a new window if there is one, and write the audit row.
  function Move(a: Account, id: Id, status: DeletionStatus, until: Option<Time>, at: Time, window: int): Account
    requires id < |a.requests|
  {
    var row := a.requests[id];
    a.(requests := a.requests[id := row.(status := status, coolingOffUntil := if until.Some? then until
                                         else row.coolingOffUntil)],
       history := a.history + [Entry(id, row.status, status, at, window)])
  }

  function CancelRequest(a: Account, customer: Id, now: Time): (Account, DeletionOutcome) {
    match FindOpen(a.requests, customer)
    case None => (a, Refused(NotFound))
    case Some(id) =>
      if !CanStop(a.requests[id].status) then (a, Refused(InvalidState))
      else (Move(a, id, Canceled, None, now, 0), Moved(id))
  }

  function AdvanceRequest(a: Account, id: Id, window: int, now: Time): (Account, DeletionOutcome) {
    if id >= |a.requests| then (a, Refused(NotFound))
    else
      match NextState(a.requests[id].status)
      case None => (a, Refused(InvalidState))
      case Some(CoolingOff) => (Move(a, id, CoolingOff, Some(now + window), now, window), Moved(id))
      case Some(Processing) =>
        var until := a.requests[id].coolingOffUntil;
        if until.None? then (a, Refused(InvalidState))
        else if until.value > now then (a, Refused(CoolingOffActive))
        else (Move(a, id, Processing, None, now, 0), Moved(id))
      case Some(status) => (Move(a, id, status, None, now, 0), Moved(id))
  }

  function RejectRequest(a: Account, id: Id, now: Time): (Account, DeletionOutcome) {
    if id >= |a.requests| then (a, Refused(NotFound))
    else if !CanStop(a.requests[id].status) then (a, Refused(InvalidState))
    else (Move(a, id, Rejected, None, now, 0), Moved(id))
  }

  function Anonymized(p: Profile): Profile {
    Profile(ProfileAnonymized, None, None, None, {})
  }

  predicate HasOpenSubscription(subs: map<C.SubId, C.Subscription>, customer: Id) {
    exists sub | sub in subs :: subs[sub].customer == customer && !subs[sub].status.Canceled?
  }

  function Executed(a: Account, id: Id, customer: Id, now: Time): Account
    requires id < |a.requests| && customer in a.profiles
  {
    Move(a, id, Completed, None, now, 0).(
      profiles := a.profiles[customer := Anonymized(a.profiles[customer])],
      overrides := O.DropAll(a.overrides, customer),
      store := a.store.(tables := L.Freeze(a.store.tables, customer)))
  }

  function ExecuteDeletion(a: Account, id: Id, now: Time): (Account, DeletionOutcome) {
    if id >= |a.requests| then (a, Refused(NotFound))
    else if !a.requests[id].status.Processing? then (a, Refused(InvalidState))
    else
      var customer := a.requests[id].customer;
      if customer !in a.profiles then (a, Refused(NotFound))
      else if HasOpenSubscription(a.store.subs, customer) then (a, Refused(SubscriptionStillActive))
      else
        (Executed(a, id, customer, now), Moved(id))
  }
}
