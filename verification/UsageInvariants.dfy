/** What every usage transaction keeps, one transaction at a time, whatever ran before it. */
module UsageInvariants {
  import opened Wrappers
  import opened UsageRules
  import opened UsageLedger

  // --- The ledger invariant ------------------------------------------------------------

  ghost predicate DistinctReservationKeys(rs: seq<Reservation>) {
    forall i, j | 0 <= i < j < |rs| :: !rs[j].NamedBy(rs[i].key.customer, rs[i].idem)
  }

  ghost predicate DistinctEventKeys(es: seq<Event>) {
    forall i, j | 0 <= i < j < |es| :: !es[j].NamedBy(es[i].key.customer, es[i].idem)
  }

  // Only adjustments may carry a negative amount.
  ghost predicate HoldsAndCommitsNonNegative(l: Ledger) {
    && (forall i | 0 <= i < |l.reservations| :: l.reservations[i].amount >= 0.0)
    && (forall i | 0 <= i < |l.events| :: l.events[i].kind.CommitEvent? ==> l.events[i].amount >= 0.0)
  }

  ghost predicate Names(e: Event, id: Id) {
    e.reservation == Some(id)
  }

  // An event that names a reservation charges exactly that reservation's key and amount.
  ghost predicate EventsMatchReservations(l: Ledger) {
    forall i | 0 <= i < |l.events| && l.events[i].reservation.Some? ::
      var id := l.events[i].reservation.value;
      && id < |l.reservations|
      && l.reservations[id].status.Committed?
      && l.events[i].key == l.reservations[id].key
      && l.events[i].amount == l.reservations[id].amount
      && l.events[i].kind.CommitEvent?
  }

  ghost predicate NamedAtMostOnce(es: seq<Event>) {
    forall i, j | 0 <= i < j < |es| && es[i].reservation.Some? :: es[i].reservation != es[j].reservation
  }

  ghost predicate CommittedAreNamed(l: Ledger) {
    forall id | 0 <= id < |l.reservations| && l.reservations[id].status.Committed? ::
      exists i :: 0 <= i < |l.events| && Names(l.events[i], id)
  }

  ghost predicate DistinctNotices(outbox: seq<Notice>) {
    forall i, j | 0 <= i < j < |outbox| :: outbox[i] != outbox[j]
  }

  ghost predicate WellFormed(l: Ledger) {
    && DistinctReservationKeys(l.reservations)
    && DistinctEventKeys(l.events)
    && HoldsAndCommitsNonNegative(l)
    && EventsMatchReservations(l)
    && NamedAtMostOnce(l.events)
    && CommittedAreNamed(l)
    && DistinctNotices(l.outbox)
  }

  // --- Sums over rows --------------------------------------------------------------------

  lemma HeldForAppend(rs: seq<Reservation>, r: Reservation, k: Key)
    ensures HeldFor(rs + [r], k) == HeldFor(rs, k) + Held(r, k)
  {
    assert (rs + [r])[..|rs|] == rs;
  }

  lemma UsedAppend(es: seq<Event>, e: Event, k: Key)
    ensures Used(es + [e], k) == Used(es, k) + (if e.key == k then e.amount else 0.0)
  {
    assert (es + [e])[..|es|] == es;
    if e.key == k {
      RebuildTotalAppend(AmountsOf(es, k), e.amount);
    } else {
      assert AmountsOf(es, k) + [] == AmountsOf(es, k);
    }
  }

  lemma {:induction false} HeldForUpdate(rs: seq<Reservation>, i: nat, r: Reservation, k: Key)
    requires i < |rs|
    ensures HeldFor(rs[i := r], k) == HeldFor(rs, k) - Held(rs[i], k) + Held(r, k)
  {
    var n := |rs| - 1;
    if i == n {
      assert rs[i := r][..n] == rs[..n];
    } else {
      assert rs[i := r][..n] == rs[..n][i := r];
      HeldForUpdate(rs[..n], i, r, k);
    }
  }

  lemma HeldForSetOne(rs: seq<Reservation>, id: Id, status: ReservationStatus, k: Key)
    requires id < |rs| && rs[id].status.Pending? && !status.Pending?
    ensures SetStatus(rs, {id}, status) == rs[id := rs[id].(status := status)]
    ensures HeldFor(SetStatus(rs, {id}, status), k) == HeldFor(rs, k) - Held(rs[id], k)
  {
    assert SetStatus(rs, {id}, status) == rs[id := rs[id].(status := status)];
    HeldForUpdate(rs, id, rs[id].(status := status), k);
  }

  // Ending holds frees quota and takes none; keys without an ended hold do not move.
  lemma {:induction false} HeldForSetMany(rs: seq<Reservation>, ids: set<Id>, status: ReservationStatus, k: Key)
    requires !status.Pending?
    requires forall i | 0 <= i < |rs| :: rs[i].amount >= 0.0
    ensures HeldFor(SetStatus(rs, ids, status), k) <= HeldFor(rs, k)
    ensures (forall i | 0 <= i < |rs| && i in ids :: rs[i].key != k) ==>
              HeldFor(SetStatus(rs, ids, status), k) == HeldFor(rs, k)
  {
    if rs != [] {
      var n := |rs| - 1;
      assert SetStatus(rs, ids, status)[..n] == SetStatus(rs[..n], ids, status);
      HeldForSetMany(rs[..n], ids, status, k);
    }
  }

  lemma {:induction false} HoldIsCovered(rs: seq<Reservation>, i: nat, k: Key)
    requires forall j | 0 <= j < |rs| :: rs[j].amount >= 0.0
    requires i <= |rs|
    ensures 0.0 <= HeldFor(rs, k)
    ensures i < |rs| ==> Held(rs[i], k) <= HeldFor(rs, k)
  {
    if rs != [] {
      var n := |rs| - 1;
      HoldIsCovered(rs[..n], if i < n then i else n, k);
    }
  }

  lemma HeldForSetNext(rs: seq<Reservation>, picked: seq<Id>, i: nat, k: Key)
    requires i < |picked| && picked[i] < |rs| && rs[picked[i]].status.Pending?
    requires forall j | 0 <= j < i :: picked[j] != picked[i]
    ensures HeldFor(SetStatus(rs, Ids(picked[..i + 1]), Expired), k)
         == HeldFor(SetStatus(rs, Ids(picked[..i]), Expired), k) - Held(rs[picked[i]], k)
  {
    var done := SetStatus(rs, Ids(picked[..i]), Expired);
    assert picked[..i + 1] == picked[..i] + [picked[i]];
    assert SetStatus(rs, Ids(picked[..i + 1]), Expired) == SetStatus(done, {picked[i]}, Expired);
    HeldForSetOne(done, picked[i], Expired, k);
  }

  // --- Preservation ------------------------------------------------------------------------

  lemma EndingHoldsKeepsWellFormed(l: Ledger, ids: set<Id>, status: ReservationStatus)
    requires WellFormed(l)
    requires status.Expired? || status.Released?
    requires forall id | id in ids && id < |l.reservations| :: l.reservations[id].status.Pending?
    ensures WellFormed(l.(reservations := SetStatus(l.reservations, ids, status)))
  {
    var l' := l.(reservations := SetStatus(l.reservations, ids, status));
    assert forall i | 0 <= i < |l.reservations| ::
        l'.reservations[i].key == l.reservations[i].key && l'.reservations[i].idem == l.reservations[i].idem;
    forall id | 0 <= id < |l'.reservations| && l'.reservations[id].status.Committed?
      ensures exists i :: 0 <= i < |l'.events| && Names(l'.events[i], id)
    {
      assert l.reservations[id].status.Committed?;
    }
  }

  lemma QueueKeepsDistinct(outbox: seq<Notice>, n: Notice)
    requires DistinctNotices(outbox)
    ensures DistinctNotices(Queue(outbox, n))
  {
  }

  lemma {:induction false} QueueThresholdsKeepsDistinct(outbox: seq<Notice>, k: Key, percents: seq<nat>)
    requires DistinctNotices(outbox)
    ensures DistinctNotices(QueueThresholds(outbox, k, percents))
    decreases |percents|
  {
    if percents != [] {
      var n := |percents| - 1;
      QueueThresholdsKeepsDistinct(outbox, k, percents[..n]);
      QueueKeepsDistinct(QueueThresholds(outbox, k, percents[..n]), ThresholdReached(k, percents[n]));
    }
  }

  lemma PlacingHoldKeepsWellFormed(l: Ledger, row: Reservation)
    requires WellFormed(l)
    requires row.status.Pending? && row.amount >= 0.0
    requires FindReservation(l.reservations, row.key.customer, row.idem).None?
    ensures WellFormed(l.(reservations := l.reservations + [row]))
  {
    var l' := l.(reservations := l.reservations + [row]);
    forall id | 0 <= id < |l'.reservations| && l'.reservations[id].status.Committed?
      ensures exists i :: 0 <= i < |l'.events| && Names(l'.events[i], id)
    {
      assert l.reservations[id].status.Committed?;
    }
  }

  lemma ReserveKeepsWellFormed(l: Ledger, input: ReserveInput, txNow: Time, wall: Time)
    requires WellFormed(l)
    ensures WellFormed(ReserveLocked(l, input, txNow, wall).0)
  {
    EndingHoldsKeepsWellFormed(l, StaleIds(l.reservations, input.key, txNow), Expired);
    var outcome := ReserveLocked(l, input, txNow, wall).1;
    if outcome.HoldPlaced? {
      PlacingHoldKeepsWellFormed(l.(reservations := ExpireKey(l.reservations, input.key, txNow)), outcome.row);
    }
  }

  // Appending one event with an unused idempotency key, with or without the hold it converts.
  ghost predicate Converts(l: Ledger, rs: seq<Reservation>, e: Event) {
    && rs == (if e.reservation.Some? && e.reservation.value < |l.reservations|
              then l.reservations[e.reservation.value := l.reservations[e.reservation.value].(status := Committed)]
              else l.reservations)
    && (e.reservation.Some? ==>
          && e.reservation.value < |l.reservations|
          && l.reservations[e.reservation.value].status.Pending?
          && l.reservations[e.reservation.value].key == e.key
          && l.reservations[e.reservation.value].amount == e.amount)
  }

  lemma ConversionKeepsMatches(l: Ledger, rs: seq<Reservation>, e: Event)
    requires WellFormed(l) && Converts(l, rs, e) && (e.reservation.Some? ==> e.kind.CommitEvent?)
    ensures EventsMatchReservations(Ledger(rs, l.events + [e], l.outbox))
    ensures NamedAtMostOnce(l.events + [e])
  {
    var es := l.events + [e];
    forall i | 0 <= i < |l.events| && l.events[i].reservation.Some?
      ensures l.events[i].reservation != e.reservation
    {
      assert l.reservations[l.events[i].reservation.value].status.Committed?;
    }
  }

  lemma ConversionKeepsNamed(l: Ledger, rs: seq<Reservation>, e: Event)
    requires WellFormed(l) && Converts(l, rs, e)
    ensures CommittedAreNamed(Ledger(rs, l.events + [e], l.outbox))
  {
    var es := l.events + [e];
    forall id | 0 <= id < |rs| && rs[id].status.Committed?
      ensures exists i :: 0 <= i < |es| && Names(es[i], id)
    {
      if e.reservation == Some(id) {
        assert Names(es[|l.events|], id);
      } else {
        assert l.reservations[id].status.Committed?;
        var i :| 0 <= i < |l.events| && Names(l.events[i], id);
        assert Names(es[i], id);
      }
    }
  }

  lemma SettleKeepsWellFormed(l: Ledger, input: CommitInput, k: Key, amount: real, reservation: Option<Id>)
    requires WellFormed(l)
    requires amount >= 0.0 && k.customer == input.customer
    requires reservation.Some? ==>
               && reservation.value < |l.reservations|
               && l.reservations[reservation.value].status.Pending?
               && l.reservations[reservation.value].key == k
               && l.reservations[reservation.value].amount == amount
    ensures WellFormed(Settle(l, input, k, amount, reservation).0)
  {
    var (l', outcome) := Settle(l, input, k, amount, reservation);
    if outcome.UsageCommitted? {
      QueueThresholdsKeepsDistinct(l.outbox, k, outcome.crossed);
      SettledKeysAndAmounts(l, l', outcome.event);
      ConversionKeepsMatches(l, l'.reservations, outcome.event);
      ConversionKeepsNamed(l, l'.reservations, outcome.event);
    }
  }

  lemma SettledKeysAndAmounts(l: Ledger, l': Ledger, event: Event)
    requires DistinctReservationKeys(l.reservations) && DistinctEventKeys(l.events) && HoldsAndCommitsNonNegative(l)
    requires l'.events == l.events + [event] && event.amount >= 0.0
    requires FindEvent(l.events, event.key.customer, event.idem).None?
    requires |l'.reservations| == |l.reservations|
    requires forall i | 0 <= i < |l.reservations| ::
               l'.reservations[i] == l.reservations[i] || l'.reservations[i] == l.reservations[i].(status := Committed)
    ensures DistinctReservationKeys(l'.reservations) && DistinctEventKeys(l'.events) && HoldsAndCommitsNonNegative(l')
  {
  }

  lemma CommitKeepsWellFormed(l: Ledger, input: CommitInput, txNow: Time, wall: Time)
    requires WellFormed(l)
    ensures WellFormed(CommitLocked(l, input, txNow, wall).0)
  {
    match input.mode
    case ByReservation(id) =>
      if id < |l.reservations| && l.reservations[id].key.customer == input.customer
          && l.reservations[id].status.Pending? {
        EndingHoldsKeepsWellFormed(l, {id}, Expired);
        SettleKeepsWellFormed(l, input, l.reservations[id].key, l.reservations[id].amount, Some(id));
      }
    case Direct(meter, amount) =>
      var k := Key(input.customer, meter, input.period);
      EndingHoldsKeepsWellFormed(l, StaleIds(l.reservations, k, txNow), Expired);
      QueueKeepsDistinct(l.outbox, UsageCommitFailed(input.customer, input.idem));
      if amount >= 0.0 {
        SettleKeepsWellFormed(l.(reservations := ExpireKey(l.reservations, k, txNow)), input, k, amount, None);
      }
  }

  lemma ReleaseKeepsWellFormed(l: Ledger, customer: Id, id: Id)
    requires WellFormed(l)
    ensures WellFormed(Release(l, customer, id).0)
  {
    if Release(l, customer, id).1.HoldReleased? {
      EndingHoldsKeepsWellFormed(l, {id}, Released);
    }
  }

  lemma SweepKeepsWellFormed(l: Ledger, picked: seq<Id>)
    requires WellFormed(l)
    requires forall i | 0 <= i < |picked| :: picked[i] < |l.reservations| && l.reservations[picked[i]].status.Pending?
    ensures WellFormed(SweepRows(l, picked))
  {
    EndingHoldsKeepsWellFormed(l, Ids(picked), Expired);
  }

  lemma AdjustKeepsWellFormed(l: Ledger, input: AdjustInput)
    requires WellFormed(l)
    ensures WellFormed(Adjust(l, input).0)
  {
    var (l', outcome) := Adjust(l, input);
    if outcome.Adjusted? {
      ConversionKeepsMatches(l, l.reservations, outcome.event);
      ConversionKeepsNamed(l, l.reservations, outcome.event);
    }
  }
}
