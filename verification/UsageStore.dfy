/**
  The usage repository over its stored tables: the ledger rows plus the totals index that the
  database keeps up to date by increments and clamped decrements. Every method is one
  transaction body; it reads the index, never the rows' sums, and is proved to leave the rows
  exactly as the slow reference of `UsageLedger` says while the index keeps agreeing with them.
 */
module UsageStore {
  import opened Wrappers
  import opened UsageRules
  import opened UsageLedger
  import opened UsageInvariants

  datatype Totals = Totals(used: real, reserved: real)

  // The advisory read: an absent row counts as zero.
  function ReadTotals(totals: map<Key, Totals>, k: Key): Totals {
    if k in totals then totals[k] else Totals(0.0, 0.0)
  }

  // greatest(0, reserved - amount)
  function Subtract(reserved: real, amount: real): real {
    if reserved - amount < 0.0 then 0.0 else reserved - amount
  }

  // The index holds, for every key, what the rows add up to.
  ghost predicate Agrees(l: Ledger, totals: map<Key, Totals>) {
    && (forall k: Key :: ReadTotals(totals, k) == Totals(Used(l.events, k), HeldFor(l.reservations, k)))
    && (forall i | 0 <= i < |l.reservations| :: l.reservations[i].key in totals)
  }

  // Between two ledgers only key `k` moves: it gains `used` and gives back `freed`.
  ghost predicate Moves(before: Ledger, after: Ledger, k: Key, used: real, freed: real) {
    && (forall o: Key :: Used(after.events, o) == Used(before.events, o) + (if o == k then used else 0.0))
    && (forall o: Key ::
          HeldFor(after.reservations, o) == HeldFor(before.reservations, o) - (if o == k then freed else 0.0))
    && |after.reservations| == |before.reservations|
    && (forall i | 0 <= i < |before.reservations| :: after.reservations[i].key == before.reservations[i].key)
  }

  lemma EndingHoldMoves(l: Ledger, id: Id, status: ReservationStatus)
    requires id < |l.reservations| && l.reservations[id].status.Pending? && !status.Pending?
    ensures var row := l.reservations[id];
            Moves(l, l.(reservations := SetStatus(l.reservations, {id}, status)), row.key, 0.0, row.amount)
  {
    forall o: Key
      ensures HeldFor(SetStatus(l.reservations, {id}, status), o)
          == HeldFor(l.reservations, o) - Held(l.reservations[id], o)
    {
      HeldForSetOne(l.reservations, id, status, o);
    }
  }

  lemma AppendingMoves(l: Ledger, event: Event)
    ensures Moves(l, l.(events := l.events + [event]), event.key, event.amount, 0.0)
  {
    forall o: Key
      ensures Used(l.events + [event], o) == Used(l.events, o) + (if o == event.key then event.amount else 0.0)
    {
      UsedAppend(l.events, event, o);
    }
  }

  lemma SweepStepMoves(l: Ledger, rs: seq<Reservation>, picked: seq<Id>, i: nat)
    requires i < |picked| && picked[i] < |rs| && rs[picked[i]].status.Pending?
    requires forall j | 0 <= j < i :: picked[j] != picked[i]
    requires forall j | 0 <= j < |rs| :: rs[j].amount >= 0.0
    requires l.reservations == SetStatus(rs, Ids(picked[..i]), Expired)
    ensures var row := rs[picked[i]];
            && Moves(l, l.(reservations := SetStatus(rs, Ids(picked[..i + 1]), Expired)), row.key, 0.0, row.amount)
            && row.amount <= HeldFor(l.reservations, row.key)
  {
    assert l.reservations[picked[i]] == rs[picked[i]];
    HoldIsCovered(l.reservations, picked[i], rs[picked[i]].key);
    forall k: Key
      ensures HeldFor(SetStatus(rs, Ids(picked[..i + 1]), Expired), k)
          == HeldFor(l.reservations, k) - Held(rs[picked[i]], k)
    {
      HeldForSetNext(rs, picked, i, k);
    }
  }

  class UsageRepository {
    var reservations: seq<Reservation>
    var events: seq<Event>
    var outbox: seq<Notice>
    var totals: map<Key, Totals>

    function Rows(): Ledger
      reads this
    {
      Ledger(reservations, events, outbox)
    }

    ghost predicate Valid()
      reads this
    {
      WellFormed(Rows()) && Agrees(Rows(), totals)
    }

    constructor ()
      ensures Valid() && Rows() == EMPTY_LEDGER
    {
      reservations, events, outbox, totals := [], [], [], map[];
    }

    // --- Statements shared by the transactions ---------------------------------------------

    method LockTotals(k: Key) returns (row: Totals)
      requires Valid()
      modifies `totals
      ensures Valid() && k in totals && row == totals[k]
      ensures totals == if k in old(totals) then old(totals) else old(totals)[k := Totals(0.0, 0.0)]
    {
      if k !in totals {
        totals := totals[k := Totals(0.0, 0.0)];
      }
      row := totals[k];
    }

    // update ... set used = used + $used, reserved = greatest(0, reserved - $freed). Where the
    // rows moved by these amounts and the hold was counted, the index follows them exactly.
    method FoldTotals(k: Key, used: real, freed: real, ghost before: Ledger, ghost after: Ledger)
      requires k in totals && Agrees(before, totals) && Moves(before, after, k, used, freed)
      requires freed <= HeldFor(before.reservations, k)
      modifies `totals
      ensures k in totals && Agrees(after, totals)
    {
      assert ReadTotals(totals, k).reserved >= freed;
      totals := totals[k := Totals(totals[k].used + used, Subtract(totals[k].reserved, freed))];
    }

    // End one pending row and give back its hold.
    method EndHold(id: Id, status: ReservationStatus)
      requires Valid()
      requires id < |reservations| && reservations[id].status.Pending?
      requires status.Expired? || status.Released?
      modifies `reservations, `totals
      ensures Valid()
      ensures reservations == SetStatus(old(reservations), {id}, status)
    {
      var row := reservations[id];
      ghost var before := Rows();
      HoldIsCovered(reservations, id, row.key);
      EndingHoldsKeepsWellFormed(before, {id}, status);
      EndingHoldMoves(before, id, status);
      reservations := SetStatus(reservations, {id}, status);
      FoldTotals(row.key, 0.0, row.amount, before, Rows());
    }

    // with expired as (update ... set status = 'expired' ... returning amount) select sum(amount)
    method ExpireRows(k: Key, now: Time) returns (reclaimed: real)
      requires HoldsAndCommitsNonNegative(Rows())
      modifies `reservations
      ensures reservations == ExpireKey(old(reservations), k, now)
      ensures reclaimed >= 0.0
      ensures forall o: Key :: HeldFor(reservations, o) == HeldFor(old(reservations), o) - (if o == k then reclaimed
                                                                                            else 0.0)
    {
      ghost var before := reservations;
      var i := 0;
      reclaimed := 0.0;
      while i < |reservations|
        invariant 0 <= i <= |reservations| == |before|
        invariant reservations == SetStatus(before, (set j | j in StaleIds(before, k, now) && j < i), Expired)
        invariant forall o: Key :: HeldFor(reservations, o) == HeldFor(before, o) - (if o == k then reclaimed else 0.0)
        invariant reclaimed >= 0.0
      {
        var row := reservations[i];
        if row.Overdue(now) && row.key == k {
          var rows := reservations[i := row.(status := Expired)];
          forall o: Key ensures HeldFor(rows, o) == HeldFor(reservations, o) - Held(row, o) {
            HeldForUpdate(reservations, i, row.(status := Expired), o);
          }
          reservations := rows;
          reclaimed := reclaimed + row.amount;
        }
        i := i + 1;
      }
      assert (set j | j in StaleIds(before, k, now) && j < i) == StaleIds(before, k, now);
    }

    // Lazy expiry of one key under its totals lock.
    method ExpireStale(k: Key, now: Time) returns (reclaimed: real)
      requires Valid() && k in totals
      modifies `reservations, `totals
      ensures Valid() && k in totals
      ensures reservations == ExpireKey(old(reservations), k, now)
      ensures reclaimed == HeldFor(old(reservations), k) - HeldFor(reservations, k)
    {
      ghost var before := Rows();
      EndingHoldsKeepsWellFormed(before, StaleIds(reservations, k, now), Expired);
      reclaimed := ExpireRows(k, now);
      HoldIsCovered(reservations, |reservations|, k);
      if reclaimed > 0.0 {
        FoldTotals(k, 0.0, reclaimed, before, Rows());
      }
    }

    // Lock the totals row of a key, give back its overdue holds, and read it.
    method LockAndExpire(k: Key, now: Time) returns (row: Totals)
      requires Valid()
      modifies `reservations, `totals
      ensures Valid() && k in totals && row == totals[k]
      ensures reservations == ExpireKey(old(reservations), k, now)
      ensures row == Totals(Used(events, k), HeldFor(reservations, k))
    {
      var _ := LockTotals(k);
      var _ := ExpireStale(k, now);
      row := totals[k];
      assert row == ReadTotals(totals, k);
    }

    // --- Transactions ------------------------------------------------------------------------

    // The locked body of `reserve`, whatever ran since the replay check.
    method ReserveUnderLock(input: ReserveInput, txNow: Time, wall: Time) returns (outcome: ReserveOutcome)
      requires Valid()
      modifies this
      ensures Valid()
      ensures (Rows(), outcome) == ReserveLocked(old(Rows()), input, txNow, wall)
    {
      var row := LockAndExpire(input.key, txNow);
      var d := Decide(input.amount, row.used, row.reserved, input.limit);
      if d.decision.Deny? {
        return HoldDenied(DeniedDecision(d.reason, input.limit, row.used, row.reserved, d.remainingBefore));
      }
      var existing := FindReservation(reservations, input.key.customer, input.idem);
      if existing.Some? {
        return HoldReplayed(existing.value, reservations[existing.value]);
      }
      var hold := Reservation(input.key, input.amount, input.idem, Pending, wall + input.ttl);
      outcome := HoldPlaced(|reservations|, hold);
      PlaceHold(hold);
    }

    // Insert the hold and count it: set reserved = reserved + amount.
    method PlaceHold(hold: Reservation)
      requires Valid() && hold.key in totals
      requires hold.status.Pending? && hold.amount >= 0.0
      requires FindReservation(reservations, hold.key.customer, hold.idem).None?
      modifies `reservations, `totals
      ensures Valid()
      ensures reservations == old(reservations) + [hold]
    {
      PlacingHoldKeepsWellFormed(Rows(), hold);
      forall k: Key ensures HeldFor(reservations + [hold], k) == HeldFor(reservations, k) + Held(hold, k) {
        HeldForAppend(reservations, hold, k);
      }
      reservations := reservations + [hold];
      var row := totals[hold.key];
      totals := totals[hold.key := row.(reserved := row.reserved + hold.amount)];
    }

    method Reserve(input: ReserveInput, txNow: Time, wall: Time) returns (outcome: ReserveOutcome)
      requires Valid()
      modifies this
      ensures Valid()
      ensures (Rows(), outcome) == UsageLedger.Reserve(old(Rows()), input, txNow, wall)
    {
      var existing := FindReservation(reservations, input.key.customer, input.idem);
      if existing.Some? {
        return HoldReplayed(existing.value, reservations[existing.value]);
      }
      outcome := ReserveUnderLock(input, txNow, wall);
    }

    // Insert the event, convert the hold, fold the totals and queue crossed thresholds.
    method SettleCommit(input: CommitInput, k: Key, amount: real, reservation: Option<Id>)
      returns (outcome: CommitOutcome)
      requires Valid() && k in totals
      requires amount >= 0.0 && k.customer == input.customer
      requires reservation.Some? ==>
                 && reservation.value < |reservations|
                 && reservations[reservation.value].status.Pending?
                 && reservations[reservation.value].key == k
                 && reservations[reservation.value].amount == amount
      modifies this
      ensures Valid()
      ensures (Rows(), outcome) == Settle(old(Rows()), input, k, amount, reservation)
    {
      SettleKeepsWellFormed(Rows(), input, k, amount, reservation);
      var existing := FindEvent(events, input.customer, input.idem);
      if existing.Some? {
        return CommitReplayed(events[existing.value]);
      }
      var event := Event(k, amount, input.idem, reservation, CommitEvent);
      RecordEvent(event);
      assert totals[k] == ReadTotals(totals, k);
      var usedAfter := totals[k].used;
      UsedAppend(old(events), event, k);
      var crossed := CrossedThresholds(usedAfter - amount, usedAfter, input.limit, input.percents);
      QueueCrossed(k, crossed);
      outcome := UsageCommitted(event, usedAfter, crossed);
    }

    // Insert the event, mark the hold it converts, and fold both into the totals row.
    method RecordEvent(event: Event)
      requires HoldsAndCommitsNonNegative(Rows()) && Agrees(Rows(), totals) && event.key in totals
      requires event.reservation.Some? ==>
                 && event.reservation.value < |reservations|
                 && reservations[event.reservation.value].status.Pending?
                 && reservations[event.reservation.value].key == event.key
                 && reservations[event.reservation.value].amount == event.amount
      modifies `reservations, `events, `totals
      ensures events == old(events) + [event]
      ensures reservations == if event.reservation.Some?
                              then SetStatus(old(reservations), {event.reservation.value}, Committed)
                              else old(reservations)
      ensures Agrees(Rows(), totals) && event.key in totals
    {
      ghost var before := Rows();
      HoldIsCovered(reservations, if event.reservation.Some? then event.reservation.value
                    else |reservations|, event.key);
      AppendingMoves(before, event);
      events := events + [event];
      if event.reservation.Some? {
        EndingHoldMoves(Rows(), event.reservation.value, Committed);
        reservations := SetStatus(reservations, {event.reservation.value}, Committed);
      }
      FoldTotals(event.key, event.amount, if event.reservation.Some? then event.amount else 0.0, before, Rows());
    }

    method QueueCrossed(k: Key, crossed: seq<nat>)
      modifies `outbox
      ensures outbox == QueueThresholds(old(outbox), k, crossed)
    {
      var i := 0;
      while i < |crossed|
        invariant 0 <= i <= |crossed|
        invariant outbox == QueueThresholds(old(outbox), k, crossed[..i])
      {
        assert crossed[..i + 1][..i] == crossed[..i];
        outbox := Queue(outbox, ThresholdReached(k, crossed[i]));
        i := i + 1;
      }
      assert crossed[..i] == crossed;
    }

    method CommitReservation(input: CommitInput, id: Id, wall: Time) returns (outcome: CommitOutcome)
      requires Valid()
      modifies this
      ensures Valid()
      ensures (Rows(), outcome) == CommitReserved(old(Rows()), input, id, wall)
    {
      if id >= |reservations| || reservations[id].key.customer != input.customer {
        return CommitFailed(ReservationNotFound);
      }
      var row := reservations[id];
      if !row.status.Pending? {
        return CommitFailed(ReservationNotCommittable(row.status));
      }
      if row.expiresAt <= wall {
        // The expiry is committed even though the caller sees an error.
        EndHold(id, Expired);
        return CommitFailed(ReservationNotCommittable(Expired));
      }
      outcome := SettleCommit(input, row.key, row.amount, Some(id));
    }

    method CommitDirectly(input: CommitInput, k: Key, amount: real, txNow: Time) returns (outcome: CommitOutcome)
      requires Valid() && k.customer == input.customer
      modifies this
      ensures Valid()
      ensures (Rows(), outcome) == CommitDirect(old(Rows()), input, k, amount, txNow)
    {
      var row := LockAndExpire(k, txNow);
      var d := Decide(amount, row.used, row.reserved, input.limit);
      if d.decision.Deny? {
        QueueKeepsDistinct(outbox, UsageCommitFailed(input.customer, input.idem));
        outbox := Queue(outbox, UsageCommitFailed(input.customer, input.idem));
        return CommitDenied(DeniedDecision(d.reason, input.limit, row.used, row.reserved, d.remainingBefore));
      }
      outcome := SettleCommit(input, k, amount, None);
    }

    method CommitUnderLock(input: CommitInput, txNow: Time, wall: Time) returns (outcome: CommitOutcome)
      requires Valid()
      modifies this
      ensures Valid()
      ensures (Rows(), outcome) == CommitLocked(old(Rows()), input, txNow, wall)
    {
      match input.mode
      case ByReservation(id) => outcome := CommitReservation(input, id, wall);
      case Direct(meter, amount) =>
        outcome := CommitDirectly(input, Key(input.customer, meter, input.period), amount, txNow);
    }

    method Commit(input: CommitInput, txNow: Time, wall: Time) returns (outcome: CommitOutcome)
      requires Valid()
      modifies this
      ensures Valid()
      ensures (Rows(), outcome) == UsageLedger.Commit(old(Rows()), input, txNow, wall)
    {
      var existing := FindEvent(events, input.customer, input.idem);
      if existing.Some? {
        return CommitReplayed(events[existing.value]);
      }
      outcome := CommitUnderLock(input, txNow, wall);
    }

    method Release(customer: Id, id: Id) returns (outcome: ReleaseOutcome)
      requires Valid()
      modifies this
      ensures Valid()
      ensures (Rows(), outcome) == UsageLedger.Release(old(Rows()), customer, id)
    {
      if id >= |reservations| || reservations[id].key.customer != customer {
        return NoReservation;
      }
      var row := reservations[id];
      if !row.status.Pending? {
        return AlreadyTerminal(row.status);
      }
      EndHold(id, Released);
      outcome := HoldReleased(row.amount);
    }

    // The sweeper: one update marks the picked rows, then each returned row gives back its hold.
    method Sweep(picked: seq<Id>) returns (reclaimed: nat)
      requires Valid()
      requires forall i | 0 <= i < |picked| :: picked[i] < |reservations| && reservations[picked[i]].status.Pending?
      requires forall i, j | 0 <= i < j < |picked| :: picked[i] != picked[j]
      modifies this
      ensures Valid()
      ensures Rows() == SweepRows(old(Rows()), picked)
      ensures reclaimed == |picked|
    {
      ghost var before := Rows();
      SweepKeepsWellFormed(before, picked);
      reservations := SetStatus(reservations, Ids(picked), Expired);
      GiveBackAll(picked, before);
      reclaimed := |picked|;
    }

    method GiveBackAll(picked: seq<Id>, ghost before: Ledger)
      requires forall i | 0 <= i < |picked| ::
                 picked[i] < |before.reservations| && before.reservations[picked[i]].status.Pending?
      requires forall i, j | 0 <= i < j < |picked| :: picked[i] != picked[j]
      requires HoldsAndCommitsNonNegative(before)
      requires Rows() == SweepRows(before, picked) && Agrees(before, totals)
      modifies `totals
      ensures Agrees(Rows(), totals)
    {
      assert SweepRows(before, []) == before;
      var i := 0;
      while i < |picked|
        invariant 0 <= i <= |picked|
        invariant Rows() == SweepRows(before, picked)
        invariant Agrees(SweepRows(before, picked[..i]), totals)
      {
        GiveBack(picked, i, before);
        i := i + 1;
      }
      assert picked[..i] == picked;
    }

    // One decrement of the sweeper's loop, for the i-th returned row.
    method GiveBack(picked: seq<Id>, i: nat, ghost before: Ledger)
      requires i < |picked| && picked[i] < |before.reservations| && before.reservations[picked[i]].status.Pending?
      requires forall j | 0 <= j < i :: picked[j] != picked[i]
      requires HoldsAndCommitsNonNegative(before)
      requires Rows() == SweepRows(before, picked)
      requires Agrees(SweepRows(before, picked[..i]), totals)
      modifies `totals
      ensures Agrees(SweepRows(before, picked[..i + 1]), totals)
    {
      var row := reservations[picked[i]];
      ghost var step := SweepRows(before, picked[..i]);
      SweepStepMoves(step, before.reservations, picked, i);
      assert step.reservations[picked[i]].key in totals;
      FoldTotals(row.key, 0.0, row.amount, step, SweepRows(before, picked[..i + 1]));
    }

    method Adjust(input: AdjustInput) returns (outcome: AdjustOutcome)
      requires Valid()
      modifies this
      ensures Valid()
      ensures (Rows(), outcome) == UsageLedger.Adjust(old(Rows()), input)
    {
      AdjustKeepsWellFormed(Rows(), input);
      if !input.customerExists {
        return CustomerNotFound;
      }
      if !input.meterExists {
        return MeterNotFound;
      }
      var existing := FindEvent(events, input.key.customer, input.idem);
      if existing.Some? {
        return AdjustReplayed(events[existing.value]);
      }
      var event := Event(input.key, input.amount, input.idem, None, AdjustmentEvent);
      AppendingMoves(Rows(), event);
      events := events + [event];
      var row := ReadTotals(totals, input.key);
      totals := totals[input.key := row.(used := row.used + input.amount)];
      outcome := Adjusted(event);
    }
  }
}
