/** What a caller may conclude from each outcome of a reserve or a commit. */
module UsageOutcomes {
  import opened Wrappers
  import opened UsageRules
  import opened UsageLedger
  import opened UsageInvariants
  import opened UsageRuns

  // Old rows stay, except that the key's pending holds past their time are now expired.
  ghost predicate OnlyExpires(before: seq<Reservation>, after: seq<Reservation>, k: Key, now: Time) {
    && |before| <= |after|
    && (forall i | 0 <= i < |before| ::
          after[i] == if before[i].key == k && before[i].status.Pending? && before[i].expiresAt <= now
              then before[i].(status := Expired) else before[i])
  }

  // What the key's load is once its overdue holds are gone, and before the request adds anything.
  function LoadBefore(l: Ledger, l': Ledger, k: Key): real
    requires |l.reservations| <= |l'.reservations|
  {
    Used(l.events, k) + HeldFor(l'.reservations[..|l.reservations|], k)
  }

  predicate Fits(load: real, amount: real, limit: Option<real>) {
    amount >= 0.0 && (limit.Some? ==> load + amount <= limit.value)
  }

  // A denial reports the limit it was measured against, the amounts it found, and what was left.
  predicate Explains(denied: DeniedDecision, amount: real, limit: Option<real>, used: real, reserved: real) {
    && denied.limit == limit && denied.used == used && denied.reserved == reserved
    && if amount < 0.0 then denied.reason.NegativeRequest? && denied.remainingBefore == Finite(0.0)
       else
         && limit.Some? && denied.reason.ExceedsRemaining?
         && denied.remainingBefore == Finite(limit.value - used - reserved)
  }

  predicate HoldNamed(rs: seq<Reservation>, customer: Id, idem: string) {
    exists r | r in rs :: r.NamedBy(customer, idem)
  }

  predicate EventNamed(es: seq<Event>, customer: Id, idem: string) {
    exists e | e in es :: e.NamedBy(customer, idem)
  }

  // Denied exactly when the request does not fit, replayed exactly when it does and its key has a hold.
  lemma ReserveAnswers(l: Ledger, input: ReserveInput, txNow: Time, wall: Time)
    requires WellFormed(l)
    ensures var (l', outcome) := ReserveLocked(l, input, txNow, wall);
            && l'.events == l.events && l'.outbox == l.outbox
            && OnlyExpires(l.reservations, l'.reservations, input.key, txNow)
            && var fits := Fits(LoadBefore(l, l', input.key), input.amount, input.limit);
            && (outcome.HoldDenied? <==> !fits)
            && (outcome.HoldReplayed? <==> fits && HoldNamed(l.reservations, input.key.customer, input.idem))
  {
    var l' := ReserveLocked(l, input, txNow, wall).0;
    var rs := ExpireKey(l.reservations, input.key, txNow);
    assert l'.reservations[..|l.reservations|] == rs;
    SameNames(l.reservations, rs, input.key.customer, input.idem);
  }

  lemma ReserveMeans(l: Ledger, input: ReserveInput, txNow: Time, wall: Time)
    requires WellFormed(l)
    ensures var (l', outcome) := ReserveLocked(l, input, txNow, wall);
            match outcome
            case HoldPlaced(id, row) =>
              && id == |l.reservations| == |l'.reservations| - 1
              && l'.reservations[id] == row
              && row == Reservation(input.key, input.amount, input.idem, Pending, wall + input.ttl)
              && (input.limit.Some? ==> Load(l', input.key) <= input.limit.value)
            case HoldReplayed(id, row) =>
              && |l'.reservations| == |l.reservations|
              && id < |l.reservations| && l'.reservations[id] == row && row.NamedBy(input.key.customer, input.idem)
            case HoldDenied(denied) =>
              && |l'.reservations| == |l.reservations|
              && Explains(denied, input.amount, input.limit, Used(l'.events, input.key),
                          HeldFor(l'.reservations, input.key))
  {
    var outcome := ReserveLocked(l, input, txNow, wall).1;
    if outcome.HoldPlaced? {
      HeldForAppend(ExpireKey(l.reservations, input.key, txNow), outcome.row, input.key);
    }
  }

  lemma SameNames(before: seq<Reservation>, after: seq<Reservation>, customer: Id, idem: string)
    requires |before| == |after|
    requires forall i | 0 <= i < |before| :: after[i].key == before[i].key && after[i].idem == before[i].idem
    ensures HoldNamed(after, customer, idem) <==> HoldNamed(before, customer, idem)
  {
    if HoldNamed(after, customer, idem) {
      var i :| 0 <= i < |after| && after[i].NamedBy(customer, idem);
      assert before[i] in before;
    }
    if HoldNamed(before, customer, idem) {
      var i :| 0 <= i < |before| && before[i].NamedBy(customer, idem);
      assert after[i] in after;
    }
  }

  // The ledger gains exactly the returned event, and its amount is what usage grows by.
  ghost predicate Records(l: Ledger, l': Ledger, input: CommitInput, event: Event, usedAfter: real) {
    && l'.events == l.events + [event]
    && event.kind.CommitEvent? && event.idem == input.idem && event.key.customer == input.customer
    && usedAfter == Used(l'.events, event.key) == Used(l.events, event.key) + event.amount
  }

  // The crossed percentages are those of the limit that usage has just reached, and each is queued.
  ghost predicate Notifies(l: Ledger, l': Ledger, input: CommitInput, event: Event, usedAfter: real,
                           crossed: seq<nat>) {
    && (forall p :: p in crossed <==>
          && p in input.percents && input.limit.Some? && input.limit.value > 0.0
          && usedAfter - event.amount < input.limit.value * (p as real) / 100.0 <= usedAfter)
    && (forall n :: n in l'.outbox <==>
          n in l.outbox || exists p :: p in crossed && n == ThresholdReached(event.key, p))
  }

  lemma SettledNotifies(l: Ledger, input: CommitInput, k: Key, amount: real, reservation: Option<Id>)
    requires reservation.Some? ==> reservation.value < |l.reservations|
    ensures var (l', outcome) := Settle(l, input, k, amount, reservation);
            outcome.UsageCommitted? ==> Notifies(l, l', input, outcome.event, outcome.usedAfter, outcome.crossed)
  {
    var (l', outcome) := Settle(l, input, k, amount, reservation);
    if outcome.UsageCommitted? {
      var before := Used(l.events, k);
      assert outcome.crossed == CrossedThresholds(before, before + amount, input.limit, input.percents);
      assert outcome.usedAfter - amount == before;
    }
  }

  // Not found exactly for a row that is not the caller's, not committable exactly for one that is no
  // longer pending or past its time, replayed exactly when the key has an event.
  lemma ReservationCommitMeans(l: Ledger, input: CommitInput, id: Id, wall: Time)
    requires WellFormed(l)
    ensures var (l', outcome) := CommitReserved(l, input, id, wall);
            var mine := id < |l.reservations| && l.reservations[id].key.customer == input.customer;
            var ready := mine && l.reservations[id].status.Pending? && wall < l.reservations[id].expiresAt;
            && |l'.reservations| == |l.reservations|
            && (forall i | 0 <= i < |l.reservations| && i != id :: l'.reservations[i] == l.reservations[i])
            && (outcome == CommitFailed(ReservationNotFound) <==> !mine)
            && (outcome.CommitFailed? <==> !ready)
            && (outcome.CommitReplayed? <==> ready && EventNamed(l.events, input.customer, input.idem))
            && match outcome
               case UsageCommitted(event, usedAfter, _) =>
                 && mine && ready && Records(l, l', input, event, usedAfter)
                 && event.reservation == Some(id)
                 && event.key == l.reservations[id].key && event.amount == l.reservations[id].amount
                 && l'.reservations[id] == l.reservations[id].(status := Committed)
               case CommitReplayed(original) =>
                 l' == l && original in l.events && original.NamedBy(input.customer, input.idem)
               case CommitDenied(_) => false
               case CommitFailed(ReservationNotFound) => l' == l
               case CommitFailed(ReservationNotCommittable(status)) =>
                 && mine && l'.events == l.events && l'.outbox == l.outbox
                 && l'.reservations[id] == l.reservations[id].(status := status)
                 && status == if l.reservations[id].status.Pending? then Expired else l.reservations[id].status
  {
    var (l', outcome) := CommitReserved(l, input, id, wall);
    if outcome.UsageCommitted? {
      UsedAppend(l.events, outcome.event, outcome.event.key);
    }
  }

  // An overdue hold that nobody has expired yet: committing it fails, and still leaves it expired.
  lemma OverdueCommitExpires()
    ensures var hold := Reservation(Key(0, "cloud_tokens", "all"), 5.0, "r", Pending, 10);
            var l := Reserve(EMPTY_LEDGER, ReserveInput(hold.key, 5.0, Some(100.0), 10, "r"), 0, 0).0;
            && l == Ledger([hold], [], [])
            && Commit(l, CommitInput(0, ByReservation(0), Some(100.0), "all", [80], "c"), 10, 10)
               == (Ledger([hold.(status := Expired)], [], []), CommitFailed(ReservationNotCommittable(Expired)))
  {
    var hold := Reservation(Key(0, "cloud_tokens", "all"), 5.0, "r", Pending, 10);
    assert ExpireKey([], hold.key, 0) == [];
    assert SetStatus([hold], {0}, Expired) == [hold.(status := Expired)];
  }

  // Denied exactly when the usage does not fit, replayed exactly when it does and its key has an event.
  lemma DirectCommitAnswers(l: Ledger, input: CommitInput, k: Key, amount: real, txNow: Time)
    requires WellFormed(l) && k.customer == input.customer
    ensures var (l', outcome) := CommitDirect(l, input, k, amount, txNow);
            && |l'.reservations| == |l.reservations|
            && OnlyExpires(l.reservations, l'.reservations, k, txNow)
            && var fits := Fits(LoadBefore(l, l', k), amount, input.limit);
            && (outcome.CommitDenied? <==> !fits)
            && (outcome.CommitReplayed? <==> fits && EventNamed(l.events, input.customer, input.idem))
            && !outcome.CommitFailed?
  {
    var l' := CommitDirect(l, input, k, amount, txNow).0;
    assert l'.reservations[..|l.reservations|] == l'.reservations;
  }

  lemma DirectCommitMeans(l: Ledger, input: CommitInput, k: Key, amount: real, txNow: Time)
    requires WellFormed(l) && k.customer == input.customer
    ensures var (l', outcome) := CommitDirect(l, input, k, amount, txNow);
            match outcome
            case UsageCommitted(event, usedAfter, _) =>
              && Records(l, l', input, event, usedAfter)
              && event.key == k && event.amount == amount && event.reservation.None?
              && (input.limit.Some? ==> Load(l', k) <= input.limit.value)
            case CommitReplayed(original) =>
              && l'.events == l.events && l'.outbox == l.outbox
              && original in l.events && original.NamedBy(input.customer, input.idem)
            case CommitDenied(denied) =>
              && l'.events == l.events
              && Explains(denied, amount, input.limit, Used(l'.events, k), HeldFor(l'.reservations, k))
              && forall n :: n in l'.outbox <==> n in l.outbox || n == UsageCommitFailed(input.customer, input.idem)
            case CommitFailed(_) => true
  {
    var outcome := CommitDirect(l, input, k, amount, txNow).1;
    if outcome.UsageCommitted? {
      UsedAppend(l.events, outcome.event, k);
    }
  }

  // In either mode a commit that is recorded queues exactly the thresholds it crosses, and no answer
  // but a denial queues anything else.
  lemma CommitNotifies(l: Ledger, input: CommitInput, txNow: Time, wall: Time)
    ensures var (l', outcome) := CommitLocked(l, input, txNow, wall);
            && (outcome.UsageCommitted? ==>
                  Notifies(l, l', input, outcome.event, outcome.usedAfter, outcome.crossed))
            && (outcome.CommitReplayed? || outcome.CommitFailed? ==> l'.outbox == l.outbox)
  {
    match input.mode
    case ByReservation(id) =>
      if id < |l.reservations| {
        SettledNotifies(l, input, l.reservations[id].key, l.reservations[id].amount, Some(id));
      }
    case Direct(meter, amount) =>
      var k := Key(input.customer, meter, input.period);
      SettledNotifies(l.(reservations := ExpireKey(l.reservations, k, txNow)), input, k, amount, None);
  }

  // A hold is given back exactly when it is the caller's and still pending: it ends released, its key
  // has that much less reserved, and nothing else moves.
  lemma ReleaseMeans(l: Ledger, customer: Id, id: Id)
    ensures var (l', outcome) := Release(l, customer, id);
            var mine := id < |l.reservations| && l.reservations[id].key.customer == customer;
            && (outcome.NoReservation? <==> !mine)
            && (outcome.HoldReleased? <==> mine && l.reservations[id].status.Pending?)
            && (!outcome.HoldReleased? ==> l' == l)
            && match outcome
               case NoReservation => true
               case AlreadyTerminal(status) => mine && status == l.reservations[id].status
               case HoldReleased(amount) =>
                 && mine && amount == l.reservations[id].amount
                 && l' == l.(reservations := l.reservations[id := l.reservations[id].(status := Released)])
                 && forall k :: HeldFor(l'.reservations, k)
                       == HeldFor(l.reservations, k) - (if k == l.reservations[id].key then amount else 0.0)
  {
    var (l', outcome) := Release(l, customer, id);
    if outcome.HoldReleased? {
      forall k
        ensures HeldFor(l'.reservations, k)
             == HeldFor(l.reservations, k) - (if k == l.reservations[id].key then outcome.amount else 0.0)
      {
        HeldForSetOne(l.reservations, id, Released, k);
      }
      HeldForSetOne(l.reservations, id, Released, l.reservations[id].key);
    }
  }

  // An adjustment counts exactly once, with its sign, against the key it names.
  lemma AdjustMeans(l: Ledger, input: AdjustInput)
    ensures var (l', outcome) := Adjust(l, input);
            && (outcome.CustomerNotFound? <==> !input.customerExists)
            && (outcome.MeterNotFound? <==> input.customerExists && !input.meterExists)
            && (outcome.AdjustReplayed? <==> input.customerExists && input.meterExists
                                             && EventNamed(l.events, input.key.customer, input.idem))
            && (!outcome.Adjusted? ==> l' == l)
            && match outcome
               case AdjustReplayed(original) =>
                 original in l.events && original.NamedBy(input.key.customer, input.idem)
               case Adjusted(event) =>
                 && l' == l.(events := l.events + [event]) && event.kind.AdjustmentEvent?
                 && event.NamedBy(input.key.customer, input.idem) && event.reservation.None?
                 && forall k :: Used(l'.events, k)
                       == Used(l.events, k) + (if k == input.key then input.amount else 0.0)
               case _ => true
  {
    var (l', outcome) := Adjust(l, input);
    if outcome.Adjusted? {
      forall k ensures Used(l'.events, k) == Used(l.events, k) + (if k == input.key then input.amount else 0.0) {
        UsedAppend(l.events, outcome.event, k);
      }
    }
  }

  // --- How holds end ----------------------------------------------------------------------------------

  // The step answers that it released this hold.
  predicate AnswersReleased(s: System, a: Action, id: Id) {
    a.ReleaseHold? && a.id == id && Release(s.ledger, a.customer, a.id).1.HoldReleased?
  }

  // The clock the step compares expiry times with.
  function ClockOf(a: Action): Option<Time> {
    match a
    case Finish(ReserveRequest(_), txNow, _) => Some(txNow)
    case Finish(CommitRequest(input), txNow, wall) => Some(if input.mode.ByReservation? then wall else txNow)
    case SweepBatch(_, now) => Some(now)
    case _ => None
  }

  // One step releases a hold exactly when it says so, and expires it only once its time is over.
  lemma StepReleases(s: System, a: Action, id: Id)
    requires id < |s.ledger.reservations|
    ensures var row, after := s.ledger.reservations[id], Apply(s, a).ledger.reservations;
            id < |after| && (after[id].status.Released? <==> row.status.Released? || AnswersReleased(s, a, id))
  {
    StepExtends(s, a);
  }

  lemma StepExpires(s: System, a: Action, id: Id)
    requires id < |s.ledger.reservations|
    ensures var row, after := s.ledger.reservations[id], Apply(s, a).ledger.reservations;
            && id < |after|
            && (after[id].status.Expired? && !row.status.Expired? ==>
                  ClockOf(a).Some? && row.expiresAt <= ClockOf(a).value)
  {
    StepExtends(s, a);
  }

  lemma NewHoldIsPending(s: System, a: Action, id: Id)
    requires |s.ledger.reservations| <= id < |Apply(s, a).ledger.reservations|
    ensures Apply(s, a).ledger.reservations[id].status.Pending?
  {
  }

  predicate EverAnsweredReleased(actions: seq<Action>, id: Id) {
    actions != []
    && var n := |actions| - 1;
       EverAnsweredReleased(actions[..n], id)
       || (id < |Run(actions[..n]).ledger.reservations| && AnswersReleased(Run(actions[..n]), actions[n], id))
  }

  predicate EverPast(actions: seq<Action>, time: Time) {
    exists a | a in actions :: ClockOf(a).Some? && time <= ClockOf(a).value
  }

  // Over any run a hold ends released exactly when a release was answered so, and expired only if
  // some step looked at the clock after its time was over.
  lemma {:induction false} HoldsEndAsAnswered(actions: seq<Action>, id: Id)
    requires id < |Run(actions).ledger.reservations|
    ensures Run(actions).ledger.reservations[id].status.Released? <==> EverAnsweredReleased(actions, id)
    ensures Run(actions).ledger.reservations[id].status.Expired? ==>
              EverPast(actions, Run(actions).ledger.reservations[id].expiresAt)
  {
    var n := |actions| - 1;
    var s := Run(actions[..n]);
    assert actions == actions[..n] + [actions[n]];
    if id < |s.ledger.reservations| {
      HoldsEndAsAnswered(actions[..n], id);
      StepReleases(s, actions[n], id);
      StepExpires(s, actions[n], id);
      StepExtends(s, actions[n]);
    } else {
      NewHoldIsPending(s, actions[n], id);
      NotReleasedYet(actions[..n], id);
    }
  }

  lemma {:induction false} NotReleasedYet(actions: seq<Action>, id: Id)
    requires |Run(actions).ledger.reservations| <= id
    ensures !EverAnsweredReleased(actions, id)
  {
    if actions != [] {
      var n := |actions| - 1;
      StepExtends(Run(actions[..n]), actions[n]);
      NotReleasedYet(actions[..n], id);
    }
  }
}
