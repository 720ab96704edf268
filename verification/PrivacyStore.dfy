/** The privacy repository: the deletion workflow over stored rows, and whole runs of it. */
module PrivacyStore {
  import opened Wrappers
  import L = LicenseTables
  import C = Commerce
  import E = Entitlements
  import O = Overrides
  import CR = CommerceRuns
  import CS = CommerceStore
  import PR = PrivacyRuns
  import opened Privacy

  class PrivacyRepository {
    const commerce: CS.CommerceRepository
    const exceptions: O.OverrideRepository
    var requests: seq<Request>
    var history: seq<Entry>
    var profiles: map<Id, Profile>

    function Rows(): Account
      reads this, commerce, commerce.licensing, exceptions
    {
      Account(requests, history, profiles, exceptions.rows, commerce.Rows())
    }

    // Every status is where its recorded transitions lead, one request is open per customer, and the
    // tables a deletion reaches into are sound.
    ghost predicate Valid()
      reads this, commerce, commerce.licensing, exceptions
    {
      PR.Orderly(Rows()) && commerce.Valid() && exceptions.Valid()
    }

    constructor ()
      ensures fresh(commerce) && fresh(commerce.licensing) && fresh(exceptions)
      ensures Valid() && Rows() == PR.EMPTY_ACCOUNT
    {
      commerce := new CS.CommerceRepository();
      exceptions := new O.OverrideRepository();
      requests, history, profiles := [], [], map[];
    }

    // The customer's one open request, new or as it was.
    method Request(customer: Id) returns (outcome: DeletionOutcome)
      requires Valid()
      modifies this
      ensures Valid()
      ensures (Rows(), outcome) == RequestDeletion(old(Rows()), customer)
      ensures !outcome.Refused? && outcome.id < |requests|
      ensures forall i: Id | i < |requests| ::
                requests[i].customer == customer && requests[i].status.Open() <==> i == outcome.id
      ensures outcome.Moved? ==> requests[outcome.id].status.Requested?
      ensures old(requests) <= requests && (outcome.Unchanged? ==> requests == old(requests))
    {
      PR.AskKeepsOrderly(Rows(), customer);
      var existing := FindOpen(requests, customer);
      if existing.Some? {
        return Unchanged(existing.value);
      }
      outcome := Moved(|requests|);
      requests := requests + [Privacy.Request(customer, Requested, None)];
    }

    method SetStatus(id: Id, status: DeletionStatus, until: Option<Time>, at: Time, window: int)
      requires id < |requests|
      modifies `requests, `history
      ensures Rows() == Move(old(Rows()), id, status, until, at, window)
    {
      var row := requests[id];
      requests := requests[id := row.(status := status, coolingOffUntil := if until.Some? then until
                                      else row.coolingOffUntil)];
      history := history + [Entry(id, row.status, status, at, window)];
    }

    // A canceled customer has no open request left; refusal means there was none or it is processing.
    method Cancel(customer: Id, now: Time) returns (outcome: DeletionOutcome)
      requires Valid()
      modifies this
      ensures Valid()
      ensures (Rows(), outcome) == CancelRequest(old(Rows()), customer, now)
      ensures outcome.Moved? ==>
                && outcome.id < |requests| && requests[outcome.id].status.Canceled?
                && forall r | r in requests :: !(r.customer == customer && r.status.Open())
      ensures outcome == Refused(NotFound) <==> forall r | r in old(requests) ::
          !(r.customer == customer && r.status.Open())
      ensures outcome == Refused(InvalidState) <==>
                exists r | r in old(requests) :: r.customer == customer && r.status.Processing?
    {
      var existing := FindOpen(requests, customer);
      if existing.None? {
        return Refused(NotFound);
      }
      assert requests[existing.value] in requests;
      if !CanStop(requests[existing.value].status) {
        return Refused(InvalidState);
      }
      PR.StopKeepsOrderly(Rows(), existing.value, Canceled, now);
      SetStatus(existing.value, Canceled, None, now, 0);
      outcome := Moved(existing.value);
    }

    // A request that begins processing has cooled off for the window it was given on entering.
    method Advance(id: Id, window: int, now: Time) returns (outcome: DeletionOutcome)
      requires Valid()
      modifies this
      ensures Valid()
      ensures (Rows(), outcome) == AdvanceRequest(old(Rows()), id, window, now)
      ensures outcome.Moved? ==>
                && outcome.id == id < |requests| && NextState(old(requests)[id].status) == Some(requests[id].status)
                && (requests[id].status.Processing? ==>
                      exists e | e in history ::
                        e.request == id && e.after.CoolingOff? && e.at + e.window <= now)
      ensures forall i | 0 <= i < |old(requests)| && i != id :: i < |requests| && requests[i] == old(requests)[i]
    {
      PR.AdvanceKeepsOrderly(Rows(), id, window, now);
      if id >= |requests| {
        return Refused(NotFound);
      }
      var next := NextState(requests[id].status);
      if next.None? {
        return Refused(InvalidState);
      }
      var until: Option<Time> := None;
      match next.value {
        case CoolingOff => until := Some(now + window);
        case Processing =>
          if requests[id].coolingOffUntil.None? {
            return Refused(InvalidState);
          }
          if requests[id].coolingOffUntil.value > now {
            return Refused(CoolingOffActive);
          }
          PR.CoolingOffIsRecorded(Rows(), id);
        case _ =>
      }
      SetStatus(id, next.value, until, now, if next.value.CoolingOff? then window else 0);
      outcome := Moved(id);
    }

    method Reject(id: Id, now: Time) returns (outcome: DeletionOutcome)
      requires Valid()
      modifies this
      ensures Valid()
      ensures (Rows(), outcome) == RejectRequest(old(Rows()), id, now)
      ensures outcome.Moved? ==>
                && outcome.id == id < |requests| && requests[id].status.Rejected?
                && forall r | r in requests :: !(r.customer == requests[id].customer && r.status.Open())
      ensures outcome.Refused? ==> Rows() == old(Rows())
    {
      if id >= |requests| {
        return Refused(NotFound);
      }
      if !CanStop(requests[id].status) {
        return Refused(InvalidState);
      }
      PR.StopKeepsOrderly(Rows(), id, Rejected, now);
      PR.StopLeavesNoneOpen(Rows(), id, Rejected, now);
      SetStatus(id, Rejected, None, now, 0);
      outcome := Moved(id);
    }

    // An execution leaves the customer nothing usable, and touches nobody else.
    method Execute(id: Id, now: Time) returns (outcome: DeletionOutcome)
      requires Valid()
      modifies this, commerce.licensing, exceptions
      ensures Valid()
      ensures (Rows(), outcome) == ExecuteDeletion(old(Rows()), id, now)
      ensures outcome.Moved? ==>
                && id < |requests| && requests[id].status.Completed?
                && PR.NothingLeft(Rows(), requests[id].customer)
                && PR.OthersUntouched(old(Rows()), Rows(), requests[id].customer)
      ensures outcome.Refused? ==> Rows() == old(Rows())
    {
      if id >= |requests| {
        return Refused(NotFound);
      }
      if !requests[id].status.Processing? {
        return Refused(InvalidState);
      }
      var customer := requests[id].customer;
      if customer !in profiles {
        return Refused(NotFound);
      }
      if HasOpenSubscription(commerce.subs, customer) {
        return Refused(SubscriptionStillActive);
      }
      PR.ExecutionMeans(Rows(), id, now);
      CarryOut(id, customer, now);
      outcome := Moved(id);
    }

    // The statements of an execution: profile, licences with all that hangs on them, overrides, request.
    method CarryOut(id: Id, customer: Id, now: Time)
      requires commerce.Valid() && exceptions.Valid()
      requires id < |requests| && customer == requests[id].customer && customer in profiles
      modifies this, commerce.licensing, exceptions
      ensures commerce.Valid() && exceptions.Valid()
      ensures Rows() == Executed(old(Rows()), id, customer, now)
    {
      profiles := profiles[customer := Anonymized(profiles[customer])];
      commerce.Freeze(customer);
      exceptions.Drop(customer);
      SetStatus(id, Completed, None, now, 0);
    }

    method Enroll(customer: Id, profile: Profile)
      requires Valid()
      modifies this
      ensures Valid() && Rows() == PR.Apply(old(Rows()), PR.Enroll(customer, profile))
    {
      PR.StepKeepsOrderly(Rows(), PR.Enroll(customer, profile));
      if customer !in profiles {
        profiles := profiles[customer := profile];
      }
    }

    method Except(productKnown: bool, customer: Id, product: string, key: O.Key, value: Option<E.FeatureValue>,
                  expiresAt: Option<Time>)
      requires Valid()
      modifies exceptions
      ensures Valid()
      ensures Rows() == PR.Apply(old(Rows()), PR.Except(productKnown, customer, product, key, value, expiresAt))
    {
      PR.StepKeepsOrderly(Rows(), PR.Except(productKnown, customer, product, key, value, expiresAt));
      var _ := exceptions.Set(customer in profiles, productKnown, customer, product, key, value, expiresAt);
    }

    method Trade(action: CR.Action)
      requires Valid()
      modifies commerce, commerce.licensing
      ensures Valid()
      ensures Rows() == PR.Apply(old(Rows()), PR.Commercial(action))
    {
      PR.StepKeepsOrderly(Rows(), PR.Commercial(action));
      CS.Perform(commerce, action);
    }
  }

  method Perform(repository: PrivacyRepository, a: PR.Action)
    requires repository.Valid()
    modifies repository, repository.commerce, repository.commerce.licensing, repository.exceptions
    ensures repository.Valid() && repository.Rows() == PR.Apply(old(repository.Rows()), a)
  {
    match a
    case Ask(customer) => var _ := repository.Request(customer);
    case Withdraw(customer, now) => var _ := repository.Cancel(customer, now);
    case Advance(id, window, now) => var _ := repository.Advance(id, window, now);
    case Reject(id, now) => var _ := repository.Reject(id, now);
    case Execute(id, now) => var _ := repository.Execute(id, now);
    case Commercial(action) => repository.Trade(action);
    case Enroll(customer, profile) => repository.Enroll(customer, profile);
    case Except(productKnown, customer, product, key, value, expiresAt) =>
      repository.Except(productKnown, customer, product, key, value, expiresAt);
  }

  // Any schedule of the workflow, of commerce and of overrides through the stored tables ends where
  // the reference says, with every invariant.
  method Serve(actions: seq<PR.Action>) returns (repository: PrivacyRepository)
    ensures fresh(repository) && repository.Valid()
    ensures repository.Rows() == PR.Run(actions)
  {
    repository := new PrivacyRepository();
    for i := 0 to |actions|
      invariant fresh(repository) && fresh(repository.commerce) && fresh(repository.commerce.licensing)
      invariant fresh(repository.exceptions)
      invariant repository.Valid() && repository.Rows() == PR.Run(actions[..i])
    {
      assert actions[..i + 1][..i] == actions[..i];
      Perform(repository, actions[i]);
    }
    assert actions[..|actions|] == actions;
  }
}
