/**
  The transactional outbox: sanitized rows, one per delivery key, tried by one worker with growing
  waits until they are delivered or given up.
 */
module Outbox {
  import opened Wrappers
  import opened Redaction

  type Id = nat
  type Time = nat

  const MAX_ATTEMPTS: nat := 12
  const MAX_BACKOFF: nat := 3600
  const BATCH: nat := 50

  function Pow2(n: nat): (p: nat)
    ensures p >= 1
  {
    if n == 0 then 1 else 2 * Pow2(n - 1)
  }

  // The wait after `attempts` failures, in seconds; doubling until an hour.
  function BackoffFor(attempts: int): (secs: nat)
    ensures 1 <= secs <= MAX_BACKOFF
  {
    var secs := Pow2(if attempts < 0 then 0 else attempts);
    if secs < MAX_BACKOFF then secs else MAX_BACKOFF
  }

  // The first wait is a second; each next one doubles until it reaches an hour and stays there.
  lemma WaitDoublesToTheCap(attempts: int)
    ensures attempts <= 0 ==> BackoffFor(attempts) == 1
    ensures attempts >= 0 ==>
              BackoffFor(attempts + 1) == if 2 * BackoffFor(attempts) < 3600 then 2 * BackoffFor(attempts) else 3600
  {
  }

  datatype Status = Pending | Delivered | DeadLetter

  datatype Row = Row(eventType: string, deliveryKey: string, payload: Json, status: Status, attempts: nat,
                     nextAttemptAt: Time)

  datatype Failure = Failure(row: Id, at: Time)

  // The table, and a trace of the deliveries that failed.
  datatype State = State(rows: seq<Row>, failures: seq<Failure>)

  datatype Delivery = Sent | NotConfigured | ProhibitedPayload | TransportFailed

  // How the sink answers the attempt on a row, and when the result is stored.
  datatype Response = Response(accepted: bool, at: Time)

  // --- Writing --------------------------------------------------------------------------------------

  predicate HasKey(rows: seq<Row>, deliveryKey: string) {
    exists r | r in rows :: r.deliveryKey == deliveryKey
  }

  function Written(rows: seq<Row>, eventType: string, deliveryKey: string, payload: Json, now: Time): seq<Row> {
    if HasKey(rows, deliveryKey) then rows
    else rows + [Row(eventType, deliveryKey, Sanitized(payload), Pending, 0, now)]
  }

  // --- Delivering -----------------------------------------------------------------------------------

  function Publish(configured: bool, payload: Json, accepted: bool): Delivery {
    if !configured then NotConfigured
    else if ContainsProhibited(payload) then ProhibitedPayload
    else if accepted then Sent
    else TransportFailed
  }

  // The check before delivery fails closed: a payload with a prohibited key is never sent.
  lemma SentMeans(configured: bool, payload: Json, accepted: bool)
    ensures Publish(configured, payload, accepted).Sent? <==> configured && accepted && !ContainsProhibited(payload)
  {
  }

  predicate IsDue(row: Row, now: Time) {
    row.status.Pending? && row.nextAttemptAt <= now
  }

  // The oldest due rows, at most a batch.
  function Due(rows: seq<Row>, now: Time, n: nat): (ids: seq<Id>)
    requires n <= |rows|
    ensures forall i | 0 <= i < |ids| :: ids[i] < n && IsDue(rows[ids[i]], now)
    ensures forall i, j | 0 <= i < j < |ids| :: ids[i] < ids[j]
    ensures |ids| <= BATCH
  {
    if n == 0 then []
    else
      var before := Due(rows, now, n - 1);
      assert forall i | 0 <= i < |before| :: before[i] < n - 1;
      if |before| < BATCH && IsDue(rows[n - 1], now) then before + [n - 1] else before
  }

  // No due row is passed over for a newer one.
  lemma {:induction false} DueIsOldestFirst(rows: seq<Row>, now: Time, n: nat, id: Id)
    requires id < n <= |rows| && IsDue(rows[id], now) && id !in Due(rows, now, n)
    ensures |Due(rows, now, n)| == BATCH && forall i | 0 <= i < BATCH :: Due(rows, now, n)[i] < id
  {
    if id < n - 1 {
      if id !in Due(rows, now, n - 1) { DueIsOldestFirst(rows, now, n - 1, id); }
    }
  }

  function Failed(row: Row, at: Time): Row {
    var attempts := row.attempts + 1;
    row.(attempts := attempts, status := if attempts >= MAX_ATTEMPTS then DeadLetter else Pending,
         nextAttemptAt := at + BackoffFor(attempts))
  }

  function Attempted(s: State, id: Id, configured: bool, response: Response): State
    requires id < |s.rows|
  {
    var row := s.rows[id];
    if Publish(configured, row.payload, response.accepted).Sent?
        then s.(rows := s.rows[id := row.(status := Delivered)])
    else State(s.rows[id := Failed(row, response.at)], s.failures + [Failure(id, response.at)])
  }

  function AttemptedAll(s: State, ids: seq<Id>, configured: bool, responses: Id -> Response): (s': State)
    requires forall i | 0 <= i < |ids| :: ids[i] < |s.rows|
    ensures |s'.rows| == |s.rows|
  {
    if ids == [] then s
    else
      var n := |ids| - 1;
      Attempted(AttemptedAll(s, ids[..n], configured, responses), ids[n], configured, responses(ids[n]))
  }

  lemma AttemptNext(s: State, ids: seq<Id>, i: nat, configured: bool, responses: Id -> Response)
    requires i < |ids| && forall j | 0 <= j < |ids| :: ids[j] < |s.rows|
    ensures AttemptedAll(s, ids[..i + 1], configured, responses)
         == Attempted(AttemptedAll(s, ids[..i], configured, responses), ids[i], configured, responses(ids[i]))
  {
    assert ids[..i + 1][..i] == ids[..i];
  }

  function Ticked(s: State, configured: bool, now: Time, responses: Id -> Response): State {
    AttemptedAll(s, Due(s.rows, now, |s.rows|), configured, responses)
  }

  // --- Runs -----------------------------------------------------------------------------------------

  datatype Action =
    | Enqueue(eventType: string, deliveryKey: string, payload: Json, now: Time)
    | Tick(configured: bool, now: Time, responses: Id -> Response)

  function Step(s: State, action: Action): State {
    match action
    case Enqueue(eventType, deliveryKey, payload, now) =>
      s.(rows := Written(s.rows, eventType, deliveryKey, payload, now))
    case Tick(configured, now, responses) => Ticked(s, configured, now, responses)
  }

  function Run(actions: seq<Action>): State {
    if actions == [] then State([], []) else Step(Run(actions[..|actions| - 1]), actions[|actions| - 1])
  }

  // Results are stored no earlier than the tick that fetched their rows.
  ghost predicate Clocked(action: Action) {
    action.Tick? ==> forall id: Id :: action.responses(id).at >= action.now
  }

  // When the attempts on a row failed.
  function FailureTimes(failures: seq<Failure>, id: Id): seq<Time> {
    if failures == [] then []
    else
      var n := |failures| - 1;
      FailureTimes(failures[..n], id) + (if failures[n].row == id then [failures[n].at] else [])
  }

  // Each failure came no sooner than the wait after the one before it.
  ghost predicate Spaced(times: seq<Time>) {
    forall i | 0 < i < |times| :: times[i] >= times[i - 1] + BackoffFor(i)
  }

  // A row has been tried as often as its column says, waiting as scheduled each time; it is given up
  // at the twelfth failure and at no other.
  ghost predicate RowPaced(row: Row, times: seq<Time>) {
    && |times| == row.attempts <= MAX_ATTEMPTS
    && (row.status.DeadLetter? <==> row.attempts == MAX_ATTEMPTS)
    && (times != [] ==> row.nextAttemptAt == times[|times| - 1] + BackoffFor(|times|))
    && Spaced(times)
  }

  ghost predicate Paced(s: State) {
    && (forall f | f in s.failures :: f.row < |s.rows|)
    && (forall id: Id | id < |s.rows| :: RowPaced(s.rows[id], FailureTimes(s.failures, id)))
  }

  // Every stored payload is clean and every delivery key is stored once.
  ghost predicate CleanAndUnique(rows: seq<Row>) {
    && (forall r | r in rows :: !ContainsProhibited(r.payload))
    && (forall i, j | 0 <= i < j < |rows| :: rows[i].deliveryKey != rows[j].deliveryKey)
  }

  lemma {:induction false} NoFailures(failures: seq<Failure>, id: Id)
    requires forall f | f in failures :: f.row != id
    ensures FailureTimes(failures, id) == []
  {
    if failures != [] { NoFailures(failures[..|failures| - 1], id); }
  }

  lemma FailureTimesAppend(failures: seq<Failure>, f: Failure, id: Id)
    ensures FailureTimes(failures + [f], id) == FailureTimes(failures, id) + (if f.row == id then [f.at] else [])
  {
    assert (failures + [f])[..|failures|] == failures;
  }

  lemma FailureKeepsRowPaced(row: Row, times: seq<Time>, at: Time)
    requires RowPaced(row, times) && row.status.Pending? && row.nextAttemptAt <= at
    ensures RowPaced(Failed(row, at), times + [at])
  {
  }

  lemma AttemptKeepsPace(s: State, id: Id, configured: bool, response: Response, now: Time)
    requires Paced(s) && id < |s.rows| && IsDue(s.rows[id], now) && response.at >= now
    ensures Paced(Attempted(s, id, configured, response))
    ensures forall other: Id | other < |s.rows| && other != id ::
        Attempted(s, id, configured, response).rows[other] == s.rows[other]
  {
    var s' := Attempted(s, id, configured, response);
    forall other: Id | other < |s.rows| ensures RowPaced(s'.rows[other], FailureTimes(s'.failures, other)) {
      assert RowPaced(s.rows[other], FailureTimes(s.failures, other));
      if s'.failures != s.failures {
        FailureTimesAppend(s.failures, Failure(id, response.at), other);
        if other == id {
          FailureKeepsRowPaced(s.rows[id], FailureTimes(s.failures, id), response.at);
        } else {
          assert FailureTimes(s.failures, other) + [] == FailureTimes(s.failures, other);
        }
      }
    }
  }

  lemma {:induction false} AttemptsKeepPace(s: State, ids: seq<Id>, configured: bool, responses: Id -> Response,
                                            now: Time)
    requires Paced(s) && forall i | 0 <= i < |ids| :: ids[i] < |s.rows| && IsDue(s.rows[ids[i]], now)
    requires forall i, j | 0 <= i < j < |ids| :: ids[i] < ids[j]
    requires forall id: Id :: responses(id).at >= now
    ensures Paced(AttemptedAll(s, ids, configured, responses))
    ensures forall id: Id | id < |s.rows| && id !in ids ::
              AttemptedAll(s, ids, configured, responses).rows[id] == s.rows[id]
  {
    if ids != [] {
      var n := |ids| - 1;
      assert ids == ids[..n] + [ids[n]];
      AttemptsKeepPace(s, ids[..n], configured, responses, now);
      AttemptKeepsPace(AttemptedAll(s, ids[..n], configured, responses), ids[n], configured, responses(ids[n]), now);
    }
  }

  lemma {:induction false} AttemptsKeepClean(s: State, ids: seq<Id>, configured: bool, responses: Id -> Response)
    requires CleanAndUnique(s.rows) && forall i | 0 <= i < |ids| :: ids[i] < |s.rows|
    ensures CleanAndUnique(AttemptedAll(s, ids, configured, responses).rows)
  {
    if ids != [] { AttemptsKeepClean(s, ids[..|ids| - 1], configured, responses); }
  }

  // A fresh row has no failures yet; the others keep theirs.
  lemma NewRowKeepsPace(s: State, row: Row)
    requires Paced(s) && row.attempts == 0 && row.status.Pending?
    ensures Paced(s.(rows := s.rows + [row]))
  {
    NoFailures(s.failures, |s.rows|);
    assert RowPaced(row, []);
  }

  lemma NewRowKeepsClean(rows: seq<Row>, row: Row)
    requires CleanAndUnique(rows) && !ContainsProhibited(row.payload) && !HasKey(rows, row.deliveryKey)
    ensures CleanAndUnique(rows + [row])
  {
  }

  lemma WriteKeepsPace(s: State, eventType: string, deliveryKey: string, payload: Json, now: Time)
    requires Paced(s) && CleanAndUnique(s.rows)
    ensures var rows := Written(s.rows, eventType, deliveryKey, payload, now);
            Paced(s.(rows := rows)) && CleanAndUnique(rows)
  {
    if !HasKey(s.rows, deliveryKey) {
      var row := Row(eventType, deliveryKey, Sanitized(payload), Pending, 0, now);
      SanitizedIsClean(payload);
      NewRowKeepsPace(s, row);
      NewRowKeepsClean(s.rows, row);
    }
  }

  lemma TickKeepsPace(s: State, configured: bool, now: Time, responses: Id -> Response)
    requires Paced(s) && CleanAndUnique(s.rows) && forall id: Id :: responses(id).at >= now
    ensures Paced(Ticked(s, configured, now, responses)) && CleanAndUnique(Ticked(s, configured, now, responses).rows)
  {
    var due := Due(s.rows, now, |s.rows|);
    AttemptsKeepPace(s, due, configured, responses, now);
    AttemptsKeepClean(s, due, configured, responses);
  }

  lemma StepKeepsPace(s: State, action: Action)
    requires Paced(s) && CleanAndUnique(s.rows) && Clocked(action)
    ensures Paced(Step(s, action)) && CleanAndUnique(Step(s, action).rows)
  {
    match action {
      case Tick(configured, now, responses) => TickKeepsPace(s, configured, now, responses);
      case Enqueue(eventType, deliveryKey, payload, now) => WriteKeepsPace(s, eventType, deliveryKey, payload, now);
    }
  }

  lemma {:induction false} EveryRunIsPaced(actions: seq<Action>)
    requires forall a | a in actions :: Clocked(a)
    ensures Paced(Run(actions)) && CleanAndUnique(Run(actions).rows)
  {
    if actions != [] {
      EveryRunIsPaced(actions[..|actions| - 1]);
      StepKeepsPace(Run(actions[..|actions| - 1]), actions[|actions| - 1]);
    }
  }

  // No stored row is ever refused as prohibited: with a configured sink only transport decides.
  lemma NeverRefusedAsProhibited(actions: seq<Action>, id: Id, accepted: bool)
    requires forall a | a in actions :: Clocked(a)
    requires id < |Run(actions).rows|
    ensures Publish(true, Run(actions).rows[id].payload, accepted) == if accepted then Sent else TransportFailed
  {
    EveryRunIsPaced(actions);
    assert Run(actions).rows[id] in Run(actions).rows;
  }

  // The waits scheduled after the first `n` failures.
  function Waits(n: nat): nat {
    if n == 0 then 0 else Waits(n - 1) + BackoffFor(n)
  }

  lemma {:induction false} SpacedWaits(times: seq<Time>, n: nat)
    requires Spaced(times) && n < |times|
    ensures times[n] >= times[0] + Waits(n)
  {
    if n > 0 { SpacedWaits(times, n - 1); }
  }

  lemma ElevenWaits()
    ensures Waits(11) == 4094
  {
    assert Pow2(3) == 8;
    assert Pow2(6) == 64;
    assert Pow2(9) == 512;
    assert Pow2(11) == 2048;
    assert Waits(3) == 14;
    assert Waits(6) == 126;
    assert Waits(9) == 1022;
  }

  // A row is tried at most twelve times. One that was given up failed exactly twelve times, the last
  // at least 4094 seconds, the sum of the eleven waits, after the first.
  lemma GivenUpAfterAllWaits(actions: seq<Action>, id: Id)
    requires forall a | a in actions :: Clocked(a)
    requires id < |Run(actions).rows|
    ensures var times := FailureTimes(Run(actions).failures, id);
            && |times| <= MAX_ATTEMPTS
            && Waits(MAX_ATTEMPTS - 1) == 4094
            && (Run(actions).rows[id].status.DeadLetter? ==> |times| == MAX_ATTEMPTS && times[11] >= times[0] + 4094)
  {
    EveryRunIsPaced(actions);
    var times := FailureTimes(Run(actions).failures, id);
    assert RowPaced(Run(actions).rows[id], times);
    ElevenWaits();
    if |times| == MAX_ATTEMPTS { SpacedWaits(times, 11); }
  }

  // Rows stay where they are and keep their event, key and payload; a final one keeps everything.
  ghost predicate KeepsFinal(rows: seq<Row>, rows': seq<Row>) {
    && |rows| <= |rows'|
    && (forall id: Id | id < |rows| ::
          && rows'[id].eventType == rows[id].eventType && rows'[id].deliveryKey == rows[id].deliveryKey
          && rows'[id].payload == rows[id].payload
          && (!rows[id].status.Pending? ==> rows'[id] == rows[id]))
  }

  lemma {:induction false} AttemptsKeepFinal(s: State, ids: seq<Id>, configured: bool, responses: Id -> Response,
                                             now: Time)
    requires Paced(s) && forall i | 0 <= i < |ids| :: ids[i] < |s.rows| && IsDue(s.rows[ids[i]], now)
    requires forall i, j | 0 <= i < j < |ids| :: ids[i] < ids[j]
    requires forall id: Id :: responses(id).at >= now
    ensures KeepsFinal(s.rows, AttemptedAll(s, ids, configured, responses).rows)
  {
    if ids != [] {
      var n := |ids| - 1;
      assert ids == ids[..n] + [ids[n]];
      AttemptsKeepFinal(s, ids[..n], configured, responses, now);
      AttemptsKeepPace(s, ids[..n], configured, responses, now);
    }
  }

  lemma StepKeepsFinal(s: State, action: Action)
    requires Paced(s) && Clocked(action)
    ensures KeepsFinal(s.rows, Step(s, action).rows)
  {
    if action.Tick? {
      AttemptsKeepFinal(s, Due(s.rows, action.now, |s.rows|), action.configured, action.responses, action.now);
    }
  }

  // Whatever is written or ticked later, delivered and given-up rows are never touched again, and a
  // pending row changes only in its attempts, its time and its status.
  lemma {:induction false} FinalRowsNeverMove(earlier: seq<Action>, later: seq<Action>)
    requires forall a | a in earlier + later :: Clocked(a)
    ensures KeepsFinal(Run(earlier).rows, Run(earlier + later).rows)
  {
    if later == [] {
      assert earlier + later == earlier;
    } else {
      var n := |later| - 1;
      assert (earlier + later)[..|earlier + later| - 1] == earlier + later[..n];
      assert forall a | a in earlier + later[..n] :: a in earlier + later;
      FinalRowsNeverMove(earlier, later[..n]);
      EveryRunIsPaced(earlier + later[..n]);
      assert later[n] in earlier + later;
      StepKeepsFinal(Run(earlier + later[..n]), later[n]);
    }
  }

  // --- What a write and a tick leave stored ---------------------------------------------------------

  // A write stores the redacted payload under a new key, due at once, and nothing under a known one.
  lemma WriteMeans(rows: seq<Row>, eventType: string, deliveryKey: string, payload: Json, now: Time)
    ensures var rows' := Written(rows, eventType, deliveryKey, payload, now);
            if exists r | r in rows :: r.deliveryKey == deliveryKey then rows' == rows
            else
              && |rows'| == |rows| + 1 && rows == rows'[..|rows|]
              && var row := rows'[|rows|];
              && row.eventType == eventType && row.deliveryKey == deliveryKey && row.payload == Sanitized(payload)
              && row.status.Pending? && row.attempts == 0 && row.nextAttemptAt == now
  {
  }

  lemma {:induction false} AttemptedAllMeans(s: State, ids: seq<Id>, configured: bool, responses: Id -> Response,
                                             id: Id)
    requires forall i | 0 <= i < |ids| :: ids[i] < |s.rows|
    requires forall i, j | 0 <= i < j < |ids| :: ids[i] < ids[j]
    requires id < |s.rows|
    ensures AttemptedAll(s, ids, configured, responses).rows[id]
         == if id in ids then Attempted(s, id, configured, responses(id)).rows[id] else s.rows[id]
  {
    if ids != [] {
      var n := |ids| - 1;
      assert ids == ids[..n] + [ids[n]];
      AttemptedAllMeans(s, ids[..n], configured, responses, id);
    }
  }

  // The tick tries the row: it is pending, its time has come, and it is among the oldest such rows.
  predicate Tried(rows: seq<Row>, now: Time, id: Id)
    requires id < |rows|
  {
    rows[id].status.Pending? && rows[id].nextAttemptAt <= now && id in Due(rows, now, |rows|)
  }

  // A tried row ends delivered exactly when there is a sink and it accepts; otherwise the attempt counts,
  // the twelfth is the last, and the next one waits. A row not tried stays as it was.
  lemma TickMeans(s: State, configured: bool, now: Time, responses: Id -> Response, id: Id)
    requires CleanAndUnique(s.rows) && id < |s.rows|
    ensures var row, row', answer := s.rows[id], Ticked(s, configured, now, responses).rows[id], responses(id);
            row' == if !Tried(s.rows, now, id) then row
                    else if configured && answer.accepted then row.(status := Delivered)
                    else row.(attempts := row.attempts + 1,
                              status := if row.attempts + 1 < 12 then Pending else DeadLetter,
                              nextAttemptAt := answer.at + BackoffFor(row.attempts + 1))
  {
    AttemptedAllMeans(s, Due(s.rows, now, |s.rows|), configured, responses, id);
    assert s.rows[id] in s.rows;
  }

  // A row whose time has come is passed over only for fifty older ones.
  lemma TriedUnlessCrowded(rows: seq<Row>, now: Time, id: Id)
    requires id < |rows| && rows[id].status.Pending? && rows[id].nextAttemptAt <= now
    ensures Tried(rows, now, id)
            || (|Due(rows, now, |rows|)| == 50 && forall older | older in Due(rows, now, |rows|) :: older < id)
  {
    if id !in Due(rows, now, |rows|) { DueIsOldestFirst(rows, now, |rows|, id); }
  }

  // --- The worker -----------------------------------------------------------------------------------

  class OutboxWorker {
    var rows: seq<Row>
    ghost var failures: seq<Failure>

    ghost function Now(): State
      reads this
    {
      State(rows, failures)
    }

    // Payloads are clean, keys unique, and every row was tried as often and as late as scheduled.
    ghost predicate Valid()
      reads this
    {
      Paced(Now()) && CleanAndUnique(rows)
    }

    constructor ()
      ensures Valid() && Now() == State([], [])
    {
      rows, failures := [], [];
    }

    method Write(eventType: string, deliveryKey: string, payload: Json, now: Time)
      requires Valid() && UniqueKeys(payload)
      modifies this
      ensures Valid()
      ensures Now() == old(Now()).(rows := Written(old(rows), eventType, deliveryKey, payload, now))
    {
      StepKeepsPace(Now(), Enqueue(eventType, deliveryKey, payload, now));
      var clean := Sanitize(payload);
      if !HasKey(rows, deliveryKey) {
        rows := rows + [Row(eventType, deliveryKey, clean, Pending, 0, now)];
      }
    }

    // One delivery, and what becomes of its row.
    method Try(id: Id, configured: bool, response: Response)
      requires id < |rows|
      modifies this
      ensures Now() == Attempted(old(Now()), id, configured, response)
    {
      var row := rows[id];
      if Publish(configured, row.payload, response.accepted).Sent? {
        rows := rows[id := row.(status := Delivered)];
      } else {
        var attempts := row.attempts + 1;
        var status := if attempts >= MAX_ATTEMPTS then DeadLetter else Pending;
        rows := rows[id := row.(attempts := attempts, status := status,
                                nextAttemptAt := response.at + BackoffFor(attempts))];
        failures := failures + [Failure(id, response.at)];
      }
    }

    method Tick(configured: bool, now: Time, responses: Id -> Response)
      requires Valid() && Clocked(Action.Tick(configured, now, responses))
      modifies this
      ensures Valid()
      ensures Now() == Ticked(old(Now()), configured, now, responses)
    {
      StepKeepsPace(Now(), Action.Tick(configured, now, responses));
      var due := Due(rows, now, |rows|);
      TryAll(due, configured, responses);
    }

    method TryAll(due: seq<Id>, configured: bool, responses: Id -> Response)
      requires forall i | 0 <= i < |due| :: due[i] < |rows|
      modifies this
      ensures Now() == AttemptedAll(old(Now()), due, configured, responses)
    {
      for i := 0 to |due|
        invariant |rows| == |old(rows)|
        invariant Now() == AttemptedAll(old(Now()), due[..i], configured, responses)
      {
        AttemptNext(old(Now()), due, i, configured, responses);
        Try(due[i], configured, responses(due[i]));
      }
      assert due[..|due|] == due;
    }
  }

  ghost predicate Possible(action: Action) {
    Clocked(action) && (action.Enqueue? ==> UniqueKeys(action.payload))
  }

  // Any writes and ticks through the stored rows end where the run says, paced and clean.
  method Serve(actions: seq<Action>) returns (worker: OutboxWorker)
    requires forall a | a in actions :: Possible(a)
    ensures fresh(worker) && worker.Valid() && worker.Now() == Run(actions)
  {
    worker := new OutboxWorker();
    for i := 0 to |actions|
      invariant fresh(worker) && worker.Valid() && worker.Now() == Run(actions[..i])
    {
      assert actions[..i + 1][..i] == actions[..i];
      assert Possible(actions[i]);
      match actions[i]
      case Enqueue(eventType, deliveryKey, payload, now) => worker.Write(eventType, deliveryKey, payload, now);
      case Tick(configured, now, responses) => worker.Tick(configured, now, responses);
    }
    assert actions[..|actions|] == actions;
  }
}
