/** What each answer of the deletion workflow means, and what it leaves stored. */
module PrivacyOutcomes {
  import opened Wrappers
  import L = LicenseTables
  import opened Privacy
  import opened PrivacyRuns

  // The one row that moved, and the audit row that says so.
  ghost predicate Moves(a: Account, a': Account, id: Id, status: DeletionStatus, until: Option<Time>, at: Time,
                        window: int)
    requires id < |a.requests|
  {
    && a'.requests == a.requests[id := Request(a.requests[id].customer, status, until)]
    && a'.history == a.history + [Entry(id, a.requests[id].status, status, at, window)]
  }

  // Asking opens a request exactly when none is open, and answers the open one otherwise.
  lemma RequestMeans(a: Account, customer: Id)
    ensures var (a', outcome) := RequestDeletion(a, customer);
            var open := exists r | r in a.requests :: r.customer == customer && r.status.Open();
            && (open ==> a' == a && outcome.Unchanged? && outcome.id < |a.requests|
                         && a.requests[outcome.id].customer == customer && a.requests[outcome.id].status.Open())
            && (!open ==>
                  && outcome == Moved(|a.requests|)
                  && a' == a.(requests := a.requests + [Request(customer, Requested, None)]))
  {
    var found := FindOpen(a.requests, customer);
    if found.Some? { assert a.requests[found.value] in a.requests; }
  }

  // An operator moves a request one stage on, exactly while it is requested, verified, or cooling off
  // with its window over; cooling off starts its window now.
  lemma AdvanceMeans(a: Account, id: Id, window: int, now: Time)
    requires Orderly(a)
    ensures var (a', outcome) := AdvanceRequest(a, id, window, now);
            && (outcome == Refused(NotFound) <==> id >= |a.requests|)
            && (outcome.Refused? ==> a' == a) && a' == a.(requests := a'.requests, history := a'.history)
            && (id < |a.requests| ==>
                  var row := a.requests[id];
                  match row.status
                  case Requested => outcome == Moved(id) && Moves(a, a', id, Verified, row.coolingOffUntil, now, 0)
                  case Verified => outcome == Moved(id) && Moves(a, a', id, CoolingOff, Some(now + window), now, window)
                  case CoolingOff =>
                    && row.coolingOffUntil.Some?
                    && if now < row.coolingOffUntil.value then outcome == Refused(CoolingOffActive)
                       else outcome == Moved(id) && Moves(a, a', id, Processing, row.coolingOffUntil, now, 0)
                  case _ => outcome == Refused(InvalidState))
  {
  }

  // Until processing begins a customer may withdraw, and an operator reject, the open request.
  lemma StopsMean(a: Account, id: Id, now: Time)
    requires Orderly(a) && id < |a.requests|
    ensures var row := a.requests[id];
            var early := row.status.Requested? || row.status.Verified? || row.status.CoolingOff?;
            var (rejected, withdrawn) := (RejectRequest(a, id, now), CancelRequest(a, row.customer, now));
            && (early ==>
                  && rejected.1 == withdrawn.1 == Moved(id)
                  && Moves(a, rejected.0, id, Rejected, row.coolingOffUntil, now, 0)
                  && Moves(a, withdrawn.0, id, Canceled, row.coolingOffUntil, now, 0))
            && (!early ==> rejected == (a, Refused(InvalidState)))
            && (row.status.Processing? ==> withdrawn == (a, Refused(InvalidState)))
            && rejected.0 == a.(requests := rejected.0.requests, history := rejected.0.history)
            && withdrawn.0 == a.(requests := withdrawn.0.requests, history := withdrawn.0.history)
  {
    var row := a.requests[id];
    if row.status.Open() { OpenIsFound(a.requests, id); }
  }

  lemma OpenIsFound(rs: seq<Request>, id: Id)
    requires OneOpen(rs) && id < |rs| && rs[id].status.Open()
    ensures FindOpen(rs, rs[id].customer) == Some(id)
  {
  }

  lemma UnknownIsNotFound(a: Account, id: Id, now: Time)
    requires id >= |a.requests|
    ensures RejectRequest(a, id, now) == (a, Refused(NotFound))
    ensures ExecuteDeletion(a, id, now) == (a, Refused(NotFound))
  {
  }

  // A deletion is carried out exactly for a processing request of a customer with a profile whose every
  // subscription is canceled; each refusal comes exactly in its case and changes nothing.
  lemma ExecutionDecides(a: Account, id: Id, now: Time)
    requires id < |a.requests|
    ensures var (a', outcome) := ExecuteDeletion(a, id, now);
            var row := a.requests[id];
            var ready := row.status.Processing? && row.customer in a.profiles;
            var subscribed := exists sub | sub in a.store.subs ::
                                a.store.subs[sub].customer == row.customer && a.store.subs[sub].status != L.Canceled;
            && (outcome == Refused(InvalidState) <==> !row.status.Processing?)
            && (outcome == Refused(NotFound) <==> row.status.Processing? && row.customer !in a.profiles)
            && (outcome == Refused(SubscriptionStillActive) <==> ready && subscribed)
            && (outcome == Moved(id) <==> ready && !subscribed)
            && (outcome != Moved(id) ==> a' == a)
            && (outcome == Moved(id) ==> Moves(a, a', id, Completed, row.coolingOffUntil, now, 0))
  {
  }
}
