/**
  Whole runs of the usage service. A request first reads, without any lock, whether its
  idempotency key was used; its locked body runs at any later point, after any other
  transactions. A run is any schedule of these steps, with any clocks, limits and batches.
 */
module UsageRuns {
  import opened Wrappers
  import opened UsageRules
  import opened UsageLedger
  import opened UsageInvariants
  import opened UsageStore

  datatype Request = ReserveRequest(reserve: ReserveInput) | CommitRequest(commit: CommitInput)

  datatype Action =
    | Arrive(request: Request)                             // the unlocked replay check
    | Finish(request: Request, txNow: Time, wall: Time)    // the locked body
    | Abandon(request: Request)                            // the connection drops, the transaction rolls back
    | ReleaseHold(customer: Id, id: Id)
    | SweepBatch(picked: seq<Id>, now: Time)
    | AdjustUsage(adjust: AdjustInput)

  datatype System = System(ledger: Ledger, inflight: multiset<Request>)

  predicate Replays(l: Ledger, request: Request) {
    match request
    case ReserveRequest(input) => ReserveCheck(l, input).Some?
    case CommitRequest(input) => CommitCheck(l, input).Some?
  }

  function Body(l: Ledger, request: Request, txNow: Time, wall: Time): Ledger {
    match request
    case ReserveRequest(input) => ReserveLocked(l, input, txNow, wall).0
    case CommitRequest(input) => CommitLocked(l, input, txNow, wall).0
  }

  // The sweeper only picks overdue rows; any selection of them is allowed here.
  predicate Sweepable(rs: seq<Reservation>, picked: seq<Id>, now: Time) {
    && (forall i | 0 <= i < |picked| :: picked[i] < |rs| && rs[picked[i]].Overdue(now))
    && (forall i, j | 0 <= i < j < |picked| :: picked[i] != picked[j])
  }

  // A step that is not enabled leaves the system alone, so every sequence of actions is a run.
  function Apply(s: System, a: Action): System {
    match a
    case Arrive(request) =>
      if Replays(s.ledger, request) then s else s.(inflight := s.inflight + multiset{request})
    case Finish(request, txNow, wall) =>
      if request in s.inflight then System(Body(s.ledger, request, txNow, wall), s.inflight - multiset{request}) else s
    case Abandon(request) => s.(inflight := s.inflight - multiset{request})
    case ReleaseHold(customer, id) => s.(ledger := Release(s.ledger, customer, id).0)
    case SweepBatch(picked, now) =>
      if Sweepable(s.ledger.reservations, picked, now) then s.(ledger := SweepRows(s.ledger, picked)) else s
    case AdjustUsage(input) => s.(ledger := Adjust(s.ledger, input).0)
  }

  function Run(actions: seq<Action>): System {
    if actions == [] then System(EMPTY_LEDGER, multiset{})
    else Apply(Run(actions[..|actions| - 1]), actions[|actions| - 1])
  }

  // --- Every run keeps the ledger well formed -----------------------------------------------

  lemma StepKeepsWellFormed(s: System, a: Action)
    requires WellFormed(s.ledger)
    ensures WellFormed(Apply(s, a).ledger)
  {
    match a
    case Finish(ReserveRequest(input), txNow, wall) => ReserveKeepsWellFormed(s.ledger, input, txNow, wall);
    case Finish(CommitRequest(input), txNow, wall) => CommitKeepsWellFormed(s.ledger, input, txNow, wall);
    case ReleaseHold(customer, id) => ReleaseKeepsWellFormed(s.ledger, customer, id);
    case SweepBatch(picked, now) =>
      if Sweepable(s.ledger.reservations, picked, now) { SweepKeepsWellFormed(s.ledger, picked); }
    case AdjustUsage(input) => AdjustKeepsWellFormed(s.ledger, input);
    case _ =>
  }

  lemma {:induction false} EveryRunIsWellFormed(actions: seq<Action>)
    ensures WellFormed(Run(actions).ledger)
  {
    if actions != [] {
      var n := |actions| - 1;
      EveryRunIsWellFormed(actions[..n]);
      StepKeepsWellFormed(Run(actions[..n]), actions[n]);
    }
  }

  // Exactly one event names the reservation, and it charges the reservation's own key and amount.
  ghost predicate ChargedOnce(l: Ledger, id: Id)
    requires id < |l.reservations|
  {
    exists i :: 0 <= i < |l.events| && Names(l.events[i], id)
                && l.events[i].key == l.reservations[id].key
                && l.events[i].amount == l.reservations[id].amount
                && forall j | 0 <= j < |l.events| && Names(l.events[j], id) :: j == i
  }

  // A reservation is committed exactly when it was charged, and then once.
  lemma CommittedIffOneEvent(actions: seq<Action>)
    ensures var l := Run(actions).ledger;
            forall id: Id | id < |l.reservations| :: l.reservations[id].status.Committed? <==> ChargedOnce(l, id)
  {
    EveryRunIsWellFormed(actions);
    var l := Run(actions).ledger;
    forall id: Id | id < |l.reservations| ensures l.reservations[id].status.Committed? <==> ChargedOnce(l, id) {
      ChargedIffCommitted(l, id);
    }
  }

  lemma ChargedIffCommitted(l: Ledger, id: Id)
    requires WellFormed(l) && id < |l.reservations|
    ensures l.reservations[id].status.Committed? <==> ChargedOnce(l, id)
  {
    if l.reservations[id].status.Committed? {
      var i :| 0 <= i < |l.events| && Names(l.events[i], id);
      assert forall j | 0 <= j < |l.events| && Names(l.events[j], id) :: j == i;
    }
  }

  // The stored index follows every schedule: used and reserved are what the rows add up to.
  method Serve(actions: seq<Action>) returns (repository: UsageRepository)
    ensures fresh(repository) && repository.Valid()
    ensures repository.Rows() == Run(actions).ledger
  {
    repository := new UsageRepository();
    var inflight: multiset<Request> := multiset{};
    var i := 0;
    while i < |actions|
      invariant 0 <= i <= |actions|
      invariant fresh(repository) && repository.Valid()
      invariant System(repository.Rows(), inflight) == Run(actions[..i])
    {
      assert actions[..i + 1][..i] == actions[..i];
      inflight := Perform(repository, inflight, actions[i]);
      i := i + 1;
    }
    assert actions[..i] == actions;
  }

  method Perform(repository: UsageRepository, inflight: multiset<Request>, a: Action) returns (left: multiset<Request>)
    requires repository.Valid()
    modifies repository
    ensures repository.Valid()
    ensures System(repository.Rows(), left) == Apply(System(old(repository.Rows()), inflight), a)
  {
    left := inflight;
    match a
    case Arrive(request) =>
      if !Replays(repository.Rows(), request) { left := inflight + multiset{request}; }
    case Finish(request, txNow, wall) =>
      if request in inflight {
        left := inflight - multiset{request};
        match request
        case ReserveRequest(input) => var _ := repository.ReserveUnderLock(input, txNow, wall);
        case CommitRequest(input) => var _ := repository.CommitUnderLock(input, txNow, wall);
      }
    case Abandon(request) => left := inflight - multiset{request};
    case ReleaseHold(customer, id) => var _ := repository.Release(customer, id);
    case SweepBatch(picked, now) =>
      if Sweepable(repository.reservations, picked, now) { var _ := repository.Sweep(picked); }
    case AdjustUsage(input) => var _ := repository.Adjust(input);
  }

  // --- Rows are append-only and terminal reservations never move -----------------------------

  ghost predicate Extends(l: Ledger, l': Ledger) {
    && l.events <= l'.events
    && l.outbox <= l'.outbox
    && |l.reservations| <= |l'.reservations|
    && (forall i | 0 <= i < |l.reservations| ::
          l'.reservations[i] == l.reservations[i]
          || (l.reservations[i].status.Pending?
              && l'.reservations[i] == l.reservations[i].(status := l'.reservations[i].status)))
  }

  lemma {:induction false} QueueThresholdsExtends(outbox: seq<Notice>, k: Key, percents: seq<nat>)
    ensures outbox <= QueueThresholds(outbox, k, percents)
    decreases |percents|
  {
    if percents != [] {
      QueueThresholdsExtends(outbox, k, percents[..|percents| - 1]);
    }
  }

  lemma StepExtends(s: System, a: Action)
    ensures Extends(s.ledger, Apply(s, a).ledger)
  {
    match a
    case Finish(ReserveRequest(input), txNow, wall) => ReserveExtends(s.ledger, input, txNow, wall);
    case Finish(CommitRequest(input), txNow, wall) => CommitExtends(s.ledger, input, txNow, wall);
    case _ =>
  }

  lemma ReserveExtends(l: Ledger, input: ReserveInput, txNow: Time, wall: Time)
    ensures Extends(l, ReserveLocked(l, input, txNow, wall).0)
  {
  }

  lemma CommitExtends(l: Ledger, input: CommitInput, txNow: Time, wall: Time)
    ensures Extends(l, CommitLocked(l, input, txNow, wall).0)
  {
    var outcome := CommitLocked(l, input, txNow, wall).1;
    if outcome.UsageCommitted? {
      QueueThresholdsExtends(l.outbox, outcome.event.key, outcome.crossed);
    }
  }

  lemma ExtendsTransitive(a: Ledger, b: Ledger, c: Ledger)
    requires Extends(a, b) && Extends(b, c)
    ensures Extends(a, c)
  {
  }

  lemma {:induction false} RunsExtend(earlier: seq<Action>, later: seq<Action>)
    ensures Extends(Run(earlier).ledger, Run(earlier + later).ledger)
  {
    if later == [] {
      assert earlier + later == earlier;
    } else {
      var n := |later| - 1;
      RunsExtend(earlier, later[..n]);
      assert (earlier + later)[..|earlier + later| - 1] == earlier + later[..n];
      StepExtends(Run(earlier + later[..n]), later[n]);
      ExtendsTransitive(Run(earlier).ledger, Run(earlier + later[..n]).ledger, Run(earlier + later).ledger);
    }
  }

  // --- Replays -----------------------------------------------------------------------------

  lemma {:induction false} FindEventIsUnique(es: seq<Event>, i: nat)
    requires DistinctEventKeys(es) && i < |es|
    ensures FindEvent(es, es[i].key.customer, es[i].idem) == Some(i)
  {
    var found := FindEvent(es, es[i].key.customer, es[i].idem);
    assert found.Some?;
  }

  // Once an idempotency key has an event, any later commit with it, in either mode and however
  // its body races, adds no event and no usage; the check and a settled body return the original.
  lemma LaterCommitsReplay(earlier: seq<Action>, later: seq<Action>, i: nat, input: CommitInput, txNow: Time,
                           wall: Time)
    requires i < |Run(earlier).ledger.events|
    requires Run(earlier).ledger.events[i].NamedBy(input.customer, input.idem)
    ensures var l := Run(earlier + later).ledger;
            var original := Run(earlier).ledger.events[i];
            && Commit(l, input, txNow, wall) == (l, CommitReplayed(original))
            && CommitLocked(l, input, txNow, wall).0.events == l.events
            && !CommitLocked(l, input, txNow, wall).1.UsageCommitted?
            && (CommitLocked(l, input, txNow, wall).1.CommitReplayed? ==>
                  CommitLocked(l, input, txNow, wall).1.original == original)
  {
    RunsExtend(earlier, later);
    EveryRunIsWellFormed(earlier + later);
    FindEventIsUnique(Run(earlier + later).ledger.events, i);
  }

  lemma LaterAdjustmentsReplay(earlier: seq<Action>, later: seq<Action>, i: nat, input: AdjustInput)
    requires i < |Run(earlier).ledger.events|
    requires Run(earlier).ledger.events[i].NamedBy(input.key.customer, input.idem)
    requires input.customerExists && input.meterExists
    ensures var l := Run(earlier + later).ledger;
            Adjust(l, input) == (l, AdjustReplayed(Run(earlier).ledger.events[i]))
  {
    RunsExtend(earlier, later);
    EveryRunIsWellFormed(earlier + later);
    FindEventIsUnique(Run(earlier + later).ledger.events, i);
  }

  lemma {:induction false} FindReservationIsUnique(rs: seq<Reservation>, i: nat)
    requires DistinctReservationKeys(rs) && i < |rs|
    ensures FindReservation(rs, rs[i].key.customer, rs[i].idem) == Some(i)
  {
    var found := FindReservation(rs, rs[i].key.customer, rs[i].idem);
    assert found.Some?;
  }

  lemma {:induction false} FindIgnoresStatus(rs: seq<Reservation>, ids: set<Id>, status: ReservationStatus,
                                             customer: Id, idem: string)
    ensures FindReservation(SetStatus(rs, ids, status), customer, idem) == FindReservation(rs, customer, idem)
  {
    if rs != [] {
      var n := |rs| - 1;
      assert SetStatus(rs, ids, status)[..n] == SetStatus(rs[..n], ids, status);
      FindIgnoresStatus(rs[..n], ids, status, customer, idem);
    }
  }

  // A reserve whose key already holds a row never places a second hold.
  lemma LaterReservesReplay(earlier: seq<Action>, later: seq<Action>, i: nat, input: ReserveInput, txNow: Time,
                            wall: Time)
    requires i < |Run(earlier).ledger.reservations|
    requires Run(earlier).ledger.reservations[i].NamedBy(input.key.customer, input.idem)
    ensures var l := Run(earlier + later).ledger;
            && i < |l.reservations|
            && Reserve(l, input, txNow, wall) == (l, HoldReplayed(i, l.reservations[i]))
            && |ReserveLocked(l, input, txNow, wall).0.reservations| == |l.reservations|
            && !ReserveLocked(l, input, txNow, wall).1.HoldPlaced?
  {
    RunsExtend(earlier, later);
    EveryRunIsWellFormed(earlier + later);
    var rs := Run(earlier + later).ledger.reservations;
    FindReservationIsUnique(rs, i);
    FindIgnoresStatus(rs, StaleIds(rs, input.key, txNow), Expired, input.key.customer, input.idem);
  }

  // --- Quota bound -----------------------------------------------------------------------------

  function Load(l: Ledger, k: Key): real {
    Used(l.events, k) + HeldFor(l.reservations, k)
  }

  function PositiveAdjustments(es: seq<Event>, k: Key): real {
    if es == [] then 0.0
    else
      var last := es[|es| - 1];
      PositiveAdjustments(es[..|es| - 1], k)
      + (if last.key == k && last.kind.AdjustmentEvent? && last.amount > 0.0 then last.amount else 0.0)
  }

  // Every quota decision the run takes on this key is against a limit of at most `cap`.
  predicate DecidesWithin(a: Action, k: Key, cap: real) {
    a.Finish? ==>
      match a.request
      case ReserveRequest(input) => input.key == k ==> input.limit.Some? && input.limit.value <= cap
      case CommitRequest(input) =>
        input.mode.Direct? && Key(input.customer, input.mode.meter, input.period) == k ==>
          input.limit.Some? && input.limit.value <= cap
  }

  lemma AppendAdjustments(es: seq<Event>, e: Event, k: Key)
    ensures PositiveAdjustments(es + [e], k) == PositiveAdjustments(es, k)
            + (if e.key == k && e.kind.AdjustmentEvent? && e.amount > 0.0 then e.amount else 0.0)
  {
    assert (es + [e])[..|es|] == es;
  }

  lemma SettleLoad(l: Ledger, input: CommitInput, to: Key, amount: real, reservation: Option<Id>, k: Key)
    requires WellFormed(l)
    requires reservation.Some? ==>
               && reservation.value < |l.reservations|
               && l.reservations[reservation.value].status.Pending?
               && l.reservations[reservation.value].key == to
               && l.reservations[reservation.value].amount == amount
    ensures var (l', outcome) := Settle(l, input, to, amount, reservation);
            && Load(l', k) == Load(l, k) + (if outcome.UsageCommitted? && reservation.None? && to == k then amount
                                            else 0.0)
            && PositiveAdjustments(l'.events, k) == PositiveAdjustments(l.events, k)
  {
    var (l', outcome) := Settle(l, input, to, amount, reservation);
    if outcome.UsageCommitted? {
      UsedAppend(l.events, outcome.event, k);
      AppendAdjustments(l.events, outcome.event, k);
      if reservation.Some? {
        HeldForSetOne(l.reservations, reservation.value, Committed, k);
      }
    }
  }

  // Converting a hold moves it from reserved to used; the load of every key stays what it was.
  lemma ReservationCommitKeepsLoad(l: Ledger, input: CommitInput, id: Id, wall: Time, k: Key)
    requires WellFormed(l)
    ensures var (l', outcome) := CommitReserved(l, input, id, wall);
            && Load(l', k) <= Load(l, k)
            && (outcome.UsageCommitted? || outcome.CommitReplayed? ==> Load(l', k) == Load(l, k))
            && PositiveAdjustments(l'.events, k) == PositiveAdjustments(l.events, k)
  {
    if id < |l.reservations| && l.reservations[id].key.customer == input.customer
        && l.reservations[id].status.Pending? {
      HeldForSetMany(l.reservations, {id}, Expired, k);
      SettleLoad(l, input, l.reservations[id].key, l.reservations[id].amount, Some(id), k);
    }
  }

  // A granted direct commit or hold lands at or under the limit it was decided against; a
  // denied one never raises any key's load.
  lemma DecidedLoad(l: Ledger, request: Request, txNow: Time, wall: Time, k: Key, cap: real)
    requires WellFormed(l)
    requires DecidesWithin(Finish(request, txNow, wall), k, cap)
    ensures var l' := Body(l, request, txNow, wall);
            && (Load(l', k) <= Load(l, k) || Load(l', k) <= cap)
            && PositiveAdjustments(l'.events, k) == PositiveAdjustments(l.events, k)
  {
    match request
    case ReserveRequest(input) => ReserveLoad(l, input, txNow, wall, k, cap);
    case CommitRequest(input) =>
      match input.mode
      case ByReservation(id) => ReservationCommitKeepsLoad(l, input, id, wall, k);
      case Direct(meter, amount) =>
        DirectLoad(l, input, Key(input.customer, meter, input.period), amount, txNow, k, cap);
  }

  lemma ReserveLoad(l: Ledger, input: ReserveInput, txNow: Time, wall: Time, k: Key, cap: real)
    requires WellFormed(l)
    requires input.key == k ==> input.limit.Some? && input.limit.value <= cap
    ensures var l' := ReserveLocked(l, input, txNow, wall).0;
            && (Load(l', k) <= Load(l, k) || Load(l', k) <= cap)
            && l'.events == l.events
  {
    HeldForSetMany(l.reservations, StaleIds(l.reservations, input.key, txNow), Expired, k);
    var outcome := ReserveLocked(l, input, txNow, wall).1;
    if outcome.HoldPlaced? {
      HeldForAppend(ExpireKey(l.reservations, input.key, txNow), outcome.row, k);
    }
  }

  lemma DirectLoad(l: Ledger, input: CommitInput, to: Key, amount: real, txNow: Time, k: Key, cap: real)
    requires WellFormed(l) && to.customer == input.customer
    requires to == k ==> input.limit.Some? && input.limit.value <= cap
    ensures var l' := CommitDirect(l, input, to, amount, txNow).0;
            && (Load(l', k) <= Load(l, k) || Load(l', k) <= cap)
            && PositiveAdjustments(l'.events, k) == PositiveAdjustments(l.events, k)
  {
    var stale := StaleIds(l.reservations, to, txNow);
    HeldForSetMany(l.reservations, stale, Expired, k);
    EndingHoldsKeepsWellFormed(l, stale, Expired);
    SettleLoad(l.(reservations := ExpireKey(l.reservations, to, txNow)), input, to, amount, None, k);
  }

  lemma StepLoad(s: System, a: Action, k: Key, cap: real)
    requires WellFormed(s.ledger) && DecidesWithin(a, k, cap)
    ensures var (l, l') := (s.ledger, Apply(s, a).ledger);
            var raised := PositiveAdjustments(l'.events, k) - PositiveAdjustments(l.events, k);
            && raised >= 0.0
            && (Load(l', k) <= Load(l, k) + raised || Load(l', k) <= cap)
  {
    match a
    case Finish(request, txNow, wall) => DecidedLoad(s.ledger, request, txNow, wall, k, cap);
    case ReleaseHold(customer, id) => HeldForSetMany(s.ledger.reservations, {id}, Released, k);
    case SweepBatch(picked, now) => HeldForSetMany(s.ledger.reservations, Ids(picked), Expired, k);
    case AdjustUsage(input) => AdjustLoad(s.ledger, input, k);
    case _ =>
  }

  lemma AdjustLoad(l: Ledger, input: AdjustInput, k: Key)
    ensures var l' := Adjust(l, input).0;
            var raised := PositiveAdjustments(l'.events, k) - PositiveAdjustments(l.events, k);
            raised >= 0.0 && Load(l', k) <= Load(l, k) + raised
  {
    var event := Event(input.key, input.amount, input.idem, None, AdjustmentEvent);
    UsedAppend(l.events, event, k);
    AppendAdjustments(l.events, event, k);
  }

  lemma {:induction false} QuotaBound(actions: seq<Action>, k: Key, cap: real)
    requires cap >= 0.0
    requires forall i | 0 <= i < |actions| :: DecidesWithin(actions[i], k, cap)
    ensures PositiveAdjustments(Run(actions).ledger.events, k) >= 0.0
    ensures Load(Run(actions).ledger, k) <= cap + PositiveAdjustments(Run(actions).ledger.events, k)
  {
    if actions != [] {
      var n := |actions| - 1;
      QuotaBound(actions[..n], k, cap);
      EveryRunIsWellFormed(actions[..n]);
      StepLoad(Run(actions[..n]), actions[n], k, cap);
    }
  }
}
