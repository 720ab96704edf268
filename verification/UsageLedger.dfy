/**
  The usage ledger as its two authoritative tables, append-only events and reservations, and
  the outbox. Nothing derived is stored here: used and reserved amounts are recomputed from
  the rows, so these functions are the slow reference for the stored totals of `UsageStore`.
 */
module UsageLedger {
  import opened Wrappers
  import opened UsageRules

  type Id = nat
  type Time = int

  // One row of totals: (customer, meter, period).
  datatype Key = Key(customer: Id, meter: string, period: string)

  datatype ReservationStatus = Pending | Committed | Released | Expired

  datatype Reservation = Reservation(key: Key, amount: real, idem: string, status: ReservationStatus, expiresAt: Time) {
    predicate NamedBy(customer: Id, name: string) {
      key.customer == customer && idem == name
    }

    predicate Overdue(now: Time) {
      status.Pending? && expiresAt <= now
    }
  }

  datatype EventKind = CommitEvent | AdjustmentEvent

  datatype Event = Event(key: Key, amount: real, idem: string, reservation: Option<Id>, kind: EventKind) {
    predicate NamedBy(customer: Id, name: string) {
      key.customer == customer && idem == name
    }
  }

  // Outbox rows, identified by their delivery key.
  datatype Notice =
    | ThresholdReached(key: Key, percent: nat)
    | UsageCommitFailed(customer: Id, idem: string)

  // A reservation's id is its row number.
  datatype Ledger = Ledger(reservations: seq<Reservation>, events: seq<Event>, outbox: seq<Notice>)

  const EMPTY_LEDGER := Ledger([], [], [])

  // --- Derived amounts -------------------------------------------------------------

  function AmountsOf(events: seq<Event>, k: Key): seq<real> {
    if events == [] then []
    else
      var last := events[|events| - 1];
      AmountsOf(events[..|events| - 1], k) + (if last.key == k then [last.amount] else [])
  }

  function Used(events: seq<Event>, k: Key): real {
    RebuildTotal(AmountsOf(events, k))
  }

  function Held(r: Reservation, k: Key): real {
    if r.key == k && r.status.Pending? then r.amount else 0.0
  }

  function HeldFor(rs: seq<Reservation>, k: Key): real {
    if rs == [] then 0.0
    else HeldFor(rs[..|rs| - 1], k) + Held(rs[|rs| - 1], k)
  }

  // --- Lookups by idempotency key ----------------------------------------------------

  function FindReservation(rs: seq<Reservation>, customer: Id, idem: string): (id: Option<Id>)
    ensures id.Some? ==> id.value < |rs| && rs[id.value].NamedBy(customer, idem)
    ensures id.None? ==> forall i | 0 <= i < |rs| :: !rs[i].NamedBy(customer, idem)
  {
    if rs == [] then None
    else if rs[|rs| - 1].NamedBy(customer, idem) then Some(|rs| - 1)
    else FindReservation(rs[..|rs| - 1], customer, idem)
  }

  function FindEvent(es: seq<Event>, customer: Id, idem: string): (id: Option<Id>)
    ensures id.Some? ==> id.value < |es| && es[id.value].NamedBy(customer, idem)
    ensures id.None? ==> forall i | 0 <= i < |es| :: !es[i].NamedBy(customer, idem)
  {
    if es == [] then None
    else if es[|es| - 1].NamedBy(customer, idem) then Some(|es| - 1)
    else FindEvent(es[..|es| - 1], customer, idem)
  }

  // --- Expiry --------------------------------------------------------------------------

  function OverdueIds(rs: seq<Reservation>, now: Time): set<Id> {
    set i: nat | i < |rs| && rs[i].Overdue(now)
  }

  function StaleIds(rs: seq<Reservation>, k: Key, now: Time): set<Id> {
    set i: nat | i < |rs| && rs[i].Overdue(now) && rs[i].key == k
  }

  function SetStatus(rs: seq<Reservation>, ids: set<Id>, status: ReservationStatus): (out: seq<Reservation>)
    ensures |out| == |rs|
  {
    seq(|rs|, i requires 0 <= i < |rs| => if i in ids then rs[i].(status := status) else rs[i])
  }

  function ExpireKey(rs: seq<Reservation>, k: Key, now: Time): seq<Reservation> {
    SetStatus(rs, StaleIds(rs, k, now), Expired)
  }

  // --- Outbox --------------------------------------------------------------------------

  // Insert unless the delivery key is already there.
  function Queue(outbox: seq<Notice>, n: Notice): (out: seq<Notice>)
    ensures forall m :: m in out <==> m in outbox || m == n
  {
    if n in outbox then outbox else outbox + [n]
  }

  function QueueThresholds(outbox: seq<Notice>, k: Key, percents: seq<nat>): (out: seq<Notice>)
    ensures forall m :: m in out <==> m in outbox || exists p :: p in percents && m == ThresholdReached(k, p)
    decreases |percents|
  {
    if percents == [] then outbox
    else
      var rest := QueueThresholds(outbox, k, percents[..|percents| - 1]);
      assert percents == percents[..|percents| - 1] + [percents[|percents| - 1]];
      Queue(rest, ThresholdReached(k, percents[|percents| - 1]))
  }

  // --- Reserve -------------------------------------------------------------------------

  datatype DeniedDecision = DeniedDecision(reason: Reason, limit: Option<real>, used: real, reserved: real,
                                           remainingBefore: Remaining)

  datatype ReserveInput = ReserveInput(key: Key, amount: real, limit: Option<real>, ttl: int, idem: string)

  datatype ReserveOutcome =
    | HoldPlaced(id: Id, row: Reservation)
    | HoldReplayed(id: Id, row: Reservation)
    | HoldDenied(denied: DeniedDecision)

  // The unlocked replay check that opens the transaction.
  function ReserveCheck(l: Ledger, input: ReserveInput): Option<ReserveOutcome> {
    match FindReservation(l.reservations, input.key.customer, input.idem)
    case None => None
    case Some(id) => Some(HoldReplayed(id, l.reservations[id]))
  }

  // Everything after the totals row is locked. `txNow` is the database clock of the
  // transaction, `wall` the process clock read when the row is written.
  function ReserveLocked(l: Ledger, input: ReserveInput, txNow: Time, wall: Time): (Ledger, ReserveOutcome) {
    var rs := ExpireKey(l.reservations, input.key, txNow);
    var used, reserved := Used(l.events, input.key), HeldFor(rs, input.key);
    var d := Decide(input.amount, used, reserved, input.limit);
    if d.decision.Deny? then
      (l.(reservations := rs), HoldDenied(DeniedDecision(d.reason, input.limit, used, reserved, d.remainingBefore)))
    else
      match FindReservation(rs, input.key.customer, input.idem)
      case Some(id) => (l.(reservations := rs), HoldReplayed(id, rs[id]))
      case None =>
        var row := Reservation(input.key, input.amount, input.idem, Pending, wall + input.ttl);
        (l.(reservations := rs + [row]), HoldPlaced(|rs|, row))
  }

  function Reserve(l: Ledger, input: ReserveInput, txNow: Time, wall: Time): (Ledger, ReserveOutcome) {
    match ReserveCheck(l, input)
    case Some(outcome) => (l, outcome)
    case None => ReserveLocked(l, input, txNow, wall)
  }

  // --- Commit --------------------------------------------------------------------------

  datatype CommitMode = ByReservation(id: Id) | Direct(meter: string, amount: real)

  datatype CommitInput = CommitInput(customer: Id, mode: CommitMode, limit: Option<real>, period: string,
                                     percents: seq<nat>, idem: string)

  datatype UsageError = ReservationNotFound | ReservationNotCommittable(status: ReservationStatus)

  datatype CommitOutcome =
    | UsageCommitted(event: Event, usedAfter: real, crossed: seq<nat>)
    | CommitReplayed(original: Event)
    | CommitDenied(denied: DeniedDecision)
    | CommitFailed(error: UsageError)

  function CommitCheck(l: Ledger, input: CommitInput): Option<CommitOutcome> {
    match FindEvent(l.events, input.customer, input.idem)
    case None => None
    case Some(id) => Some(CommitReplayed(l.events[id]))
  }

  // Append the event and fold it in, unless another transaction took the idempotency key.
  function Settle(l: Ledger, input: CommitInput, k: Key, amount: real, reservation: Option<Id>): (Ledger, CommitOutcome)
    requires reservation.Some? ==> reservation.value < |l.reservations|
  {
    match FindEvent(l.events, input.customer, input.idem)
    case Some(id) => (l, CommitReplayed(l.events[id]))
    case None =>
      var event := Event(k, amount, input.idem, reservation, CommitEvent);
      var before := Used(l.events, k);
      var crossed := CrossedThresholds(before, before + amount, input.limit, input.percents);
      var rs := if reservation.Some? then SetStatus(l.reservations, {reservation.value}, Committed) else l.reservations;
      (Ledger(rs, l.events + [event], QueueThresholds(l.outbox, k, crossed)),
       UsageCommitted(event, before + amount, crossed))
  }

  function CommitReserved(l: Ledger, input: CommitInput, id: Id, wall: Time): (Ledger, CommitOutcome) {
    if id >= |l.reservations| || l.reservations[id].key.customer != input.customer then
      (l, CommitFailed(ReservationNotFound))
    else
      var r := l.reservations[id];
      if !r.status.Pending? then (l, CommitFailed(ReservationNotCommittable(r.status)))
      else if r.expiresAt <= wall then
        (l.(reservations := SetStatus(l.reservations, {id}, Expired)), CommitFailed(ReservationNotCommittable(Expired)))
      else Settle(l, input, r.key, r.amount, Some(id))
  }

  function CommitDirect(l: Ledger, input: CommitInput, k: Key, amount: real, txNow: Time): (Ledger, CommitOutcome) {
    var rs := ExpireKey(l.reservations, k, txNow);
    var l1 := l.(reservations := rs);
    var used, reserved := Used(l.events, k), HeldFor(rs, k);
    var d := Decide(amount, used, reserved, input.limit);
    if d.decision.Deny? then
      (l1.(outbox := Queue(l.outbox, UsageCommitFailed(input.customer, input.idem))),
       CommitDenied(DeniedDecision(d.reason, input.limit, used, reserved, d.remainingBefore)))
    else Settle(l1, input, k, amount, None)
  }

  function CommitLocked(l: Ledger, input: CommitInput, txNow: Time, wall: Time): (Ledger, CommitOutcome) {
    match input.mode
    case ByReservation(id) => CommitReserved(l, input, id, wall)
    case Direct(meter, amount) =>
      CommitDirect(l, input, Key(input.customer, meter, input.period), amount, txNow)
  }

  function Commit(l: Ledger, input: CommitInput, txNow: Time, wall: Time): (Ledger, CommitOutcome) {
    match CommitCheck(l, input)
    case Some(outcome) => (l, outcome)
    case None => CommitLocked(l, input, txNow, wall)
  }

  // --- Release, sweep, adjust ------------------------------------------------------------

  datatype ReleaseOutcome = NoReservation | HoldReleased(amount: real) | AlreadyTerminal(status: ReservationStatus)

  function Release(l: Ledger, customer: Id, id: Id): (Ledger, ReleaseOutcome) {
    if id >= |l.reservations| || l.reservations[id].key.customer != customer then (l, NoReservation)
    else
      var r := l.reservations[id];
      if !r.status.Pending? then (l, AlreadyTerminal(r.status))
      else (l.(reservations := SetStatus(l.reservations, {id}, Released)), HoldReleased(r.amount))
  }

  // What the sweeper's batch query may return: distinct overdue rows not locked by another
  // transaction, as many as the batch allows, none skipped for one that expires later.
  ghost predicate IsBatch(rs: seq<Reservation>, picked: seq<Id>, batch: nat, locked: set<Id>, now: Time) {
    var eligible := OverdueIds(rs, now) - locked;
    && (forall i | 0 <= i < |picked| :: picked[i] in eligible)
    && (forall i, j | 0 <= i < j < |picked| :: picked[i] != picked[j])
    && |picked| == (if |eligible| < batch then |eligible| else batch)
    && (forall i, id | 0 <= i < |picked| && id in eligible && id !in picked ::
          rs[picked[i]].expiresAt <= rs[id].expiresAt)
  }

  function Ids(picked: seq<Id>): set<Id> {
    set id | id in picked
  }

  function SweepRows(l: Ledger, picked: seq<Id>): Ledger {
    l.(reservations := SetStatus(l.reservations, Ids(picked), Expired))
  }

  datatype AdjustInput = AdjustInput(key: Key, amount: real, idem: string, customerExists: bool, meterExists: bool)

  datatype AdjustOutcome =
    | CustomerNotFound
    | MeterNotFound
    | Adjusted(event: Event)
    | AdjustReplayed(original: Event)

  function Adjust(l: Ledger, input: AdjustInput): (Ledger, AdjustOutcome) {
    if !input.customerExists then (l, CustomerNotFound)
    else if !input.meterExists then (l, MeterNotFound)
    else
      match FindEvent(l.events, input.key.customer, input.idem)
      case Some(id) => (l, AdjustReplayed(l.events[id]))
      case None =>
        var event := Event(input.key, input.amount, input.idem, None, AdjustmentEvent);
        (l.(events := l.events + [event]), Adjusted(event))
  }
}
