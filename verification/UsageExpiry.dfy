/** Expiry by sweeper batch, lazily by key, or one row at a time reaches one and the same state. */
module UsageExpiry {
  import opened Wrappers
  import opened UsageLedger
  import opened UsageInvariants
  import opened UsageStore

  datatype ExpiryStep =
    | SweepPicked(picked: seq<Id>)   // a sweeper batch, or the single row of an overdue commit
    | LazyByKey(key: Key)            // the locked expiry of one key

  function Expire(l: Ledger, e: ExpiryStep, now: Time): Ledger {
    match e
    case SweepPicked(picked) =>
      l.(reservations := SetStatus(l.reservations, Ids(picked) * OverdueIds(l.reservations, now), Expired))
    case LazyByKey(k) => l.(reservations := ExpireKey(l.reservations, k, now))
  }

  function ExpireAll(l: Ledger, steps: seq<ExpiryStep>, now: Time): Ledger
    decreases |steps|
  {
    if steps == [] then l else ExpireAll(Expire(l, steps[0], now), steps[1..], now)
  }

  // The common normal form: every overdue hold expired, nothing else touched.
  function Settled(l: Ledger, now: Time): Ledger {
    l.(reservations := SetStatus(l.reservations, OverdueIds(l.reservations, now), Expired))
  }

  predicate NothingOverdue(l: Ledger, now: Time) {
    OverdueIds(l.reservations, now) == {}
  }

  lemma StepKeepsNormalForm(l: Ledger, e: ExpiryStep, now: Time)
    ensures Settled(Expire(l, e, now), now) == Settled(l, now)
    ensures OverdueIds(Expire(l, e, now).reservations, now) <= OverdueIds(l.reservations, now)
  {
    assert Settled(Expire(l, e, now), now).reservations == Settled(l, now).reservations;
  }

  lemma {:induction false} StepsKeepNormalForm(l: Ledger, steps: seq<ExpiryStep>, now: Time)
    ensures Settled(ExpireAll(l, steps, now), now) == Settled(l, now)
    decreases |steps|
  {
    if steps != [] {
      StepKeepsNormalForm(l, steps[0], now);
      StepsKeepNormalForm(Expire(l, steps[0], now), steps[1..], now);
    }
  }

  // Any two mixes of expiry steps at one instant that leave nothing overdue end in the same rows.
  lemma ExpiryIsConfluent(l: Ledger, left: seq<ExpiryStep>, right: seq<ExpiryStep>, now: Time)
    requires NothingOverdue(ExpireAll(l, left, now), now)
    requires NothingOverdue(ExpireAll(l, right, now), now)
    ensures ExpireAll(l, left, now) == ExpireAll(l, right, now) == Settled(l, now)
  {
    StepsKeepNormalForm(l, left, now);
    StepsKeepNormalForm(l, right, now);
    assert forall m: Ledger | NothingOverdue(m, now) :: Settled(m, now).reservations == m.reservations;
  }

  // And so in the same stored totals, whatever rows their totals tables happen to have.
  lemma ExpiryReachesSameTotals(l: Ledger, left: seq<ExpiryStep>, right: seq<ExpiryStep>, now: Time,
                                leftTotals: map<Key, Totals>, rightTotals: map<Key, Totals>, k: Key)
    requires NothingOverdue(ExpireAll(l, left, now), now) && Agrees(ExpireAll(l, left, now), leftTotals)
    requires NothingOverdue(ExpireAll(l, right, now), now) && Agrees(ExpireAll(l, right, now), rightTotals)
    ensures ReadTotals(leftTotals, k) == ReadTotals(rightTotals, k)
  {
    ExpiryIsConfluent(l, left, right, now);
  }

  // --- Termination of repeated sweeps ------------------------------------------------------

  // Each batch is a possible answer of the sweeper's query when no row is locked elsewhere.
  ghost predicate Sweeps(l: Ledger, batches: seq<seq<Id>>, batch: nat, now: Time)
    decreases |batches|
  {
    batches != [] ==>
      && IsBatch(l.reservations, batches[0], batch, {}, now)
      && Sweeps(SweepRows(l, batches[0]), batches[1..], batch, now)
  }

  function SweepAll(l: Ledger, batches: seq<seq<Id>>): Ledger
    decreases |batches|
  {
    if batches == [] then l else SweepAll(SweepRows(l, batches[0]), batches[1..])
  }

  lemma {:induction false} DistinctIdsCount(picked: seq<Id>)
    requires forall i, j | 0 <= i < j < |picked| :: picked[i] != picked[j]
    ensures |Ids(picked)| == |picked|
  {
    if picked != [] {
      var n := |picked| - 1;
      DistinctIdsCount(picked[..n]);
      assert Ids(picked) == Ids(picked[..n]) + {picked[n]};
    }
  }

  // A batch removes exactly the rows it picked from the overdue ones.
  lemma BatchShrinks(l: Ledger, picked: seq<Id>, batch: nat, now: Time)
    requires IsBatch(l.reservations, picked, batch, {}, now)
    ensures SweepRows(l, picked) == Expire(l, SweepPicked(picked), now)
    ensures |OverdueIds(SweepRows(l, picked).reservations, now)| == |OverdueIds(l.reservations, now)| - |picked|
    ensures |picked| == batch || NothingOverdue(SweepRows(l, picked), now)
  {
    var overdue := OverdueIds(l.reservations, now);
    assert overdue - {} == overdue;
    assert Ids(picked) * overdue == Ids(picked);
    assert OverdueIds(SweepRows(l, picked).reservations, now) == overdue - Ids(picked);
    DistinctIdsCount(picked);
    assert forall rest: set<Id> | |rest| == 0 :: rest == {};
  }

  lemma OneBatchLess(n: nat, batch: nat, before: nat, after: int)
    requires n > 0 && before <= n * batch
    requires after == before - batch || after == 0
    ensures after <= (n - 1) * batch
  {
    assert n * batch == (n - 1) * batch + batch;
  }

  // Sweeping often enough leaves no overdue hold: the count falls by a whole batch each time.
  lemma {:induction false} SweepsDrain(l: Ledger, batches: seq<seq<Id>>, batch: nat, now: Time)
    requires Sweeps(l, batches, batch, now)
    requires |OverdueIds(l.reservations, now)| <= |batches| * batch
    ensures SweepAll(l, batches) == Settled(l, now)
    ensures NothingOverdue(SweepAll(l, batches), now)
    decreases |batches|
  {
    if batches == [] {
      assert Settled(l, now).reservations == l.reservations;
    } else {
      BatchShrinks(l, batches[0], batch, now);
      StepKeepsNormalForm(l, SweepPicked(batches[0]), now);
      OneBatchLess(|batches|, batch, |OverdueIds(l.reservations, now)|,
                   |OverdueIds(SweepRows(l, batches[0]).reservations, now)|);
      SweepsDrain(SweepRows(l, batches[0]), batches[1..], batch, now);
    }
  }
}
