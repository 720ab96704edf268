/** Threshold notices over whole runs: which percentages have been queued for a key, and when. */
module UsageThresholds {
  import opened Wrappers
  import opened UsageRules
  import opened UsageLedger
  import opened UsageInvariants
  import opened UsageRuns

  function ChargedKey(l: Ledger, input: CommitInput): Option<Key> {
    match input.mode
    case ByReservation(id) => if id < |l.reservations| then Some(l.reservations[id].key) else None
    case Direct(meter, amount) => Some(Key(input.customer, meter, input.period))
  }

  // The step commits usage of `k`, if at all, under this limit and these percentages.
  predicate ChargesUnder(l: Ledger, a: Action, k: Key, limit: Option<real>, percents: seq<nat>) {
    a.Finish? && a.request.CommitRequest? && ChargedKey(l, a.request.commit) == Some(k) ==>
      a.request.commit.limit == limit && a.request.commit.percents == percents
  }

  ghost predicate RunsUnder(actions: seq<Action>, k: Key, limit: Option<real>, percents: seq<nat>) {
    forall i | 0 <= i < |actions| :: ChargesUnder(Run(actions[..i]).ledger, actions[i], k, limit, percents)
  }

  predicate Configured(p: nat, limit: Option<real>, percents: seq<nat>) {
    p in percents && limit.Some? && limit.value > 0.0
  }

  // Queued exactly when configured, positive, and reached.
  ghost predicate QueuedExactly(l: Ledger, k: Key, limit: Option<real>, percents: seq<nat>) {
    forall p: nat | p > 0 ::
      ThresholdReached(k, p) in l.outbox <==>
        Configured(p, limit, percents) && Mark(limit.value, p) <= Used(l.events, k)
  }

  // --- Crossings of a mark, read off the ledger -----------------------------------------------------

  // How often events of one kind carried the usage of `k` from below the mark to it or past it.
  function Rises(events: seq<Event>, k: Key, mark: real, kind: EventKind): nat {
    if events == [] then 0
    else
      var before, e := events[..|events| - 1], events[|events| - 1];
      Rises(before, k, mark, kind)
      + (if e.key == k && e.kind == kind && Used(before, k) < mark <= Used(before, k) + e.amount then 1 else 0)
  }

  // How often adjustments carried it from the mark or above to below it.
  function Falls(events: seq<Event>, k: Key, mark: real): nat {
    if events == [] then 0
    else
      var before, e := events[..|events| - 1], events[|events| - 1];
      Falls(before, k, mark)
      + (if e.key == k && e.kind.AdjustmentEvent? && Used(before, k) + e.amount < mark <= Used(before, k) then 1 else 0)
  }

  function Reached(mark: real, used: real): int {
    if mark <= used then 1 else 0
  }

  lemma CrossingsAppend(events: seq<Event>, e: Event, k: Key, mark: real)
    ensures Used(events + [e], k) == Used(events, k) + (if e.key == k then e.amount else 0.0)
    ensures forall kind :: Rises(events + [e], k, mark, kind) == Rises(events, k, mark, kind)
              + (if e.key == k && e.kind == kind && Used(events, k) < mark <= Used(events, k) + e.amount then 1 else 0)
    ensures Falls(events + [e], k, mark) == Falls(events, k, mark)
              + (if e.key == k && e.kind.AdjustmentEvent? && Used(events, k) + e.amount < mark <= Used(events, k)
                 then 1 else 0)
  {
    UsedAppend(events, e, k);
    assert (events + [e])[..|events|] == events;
  }

  // Usage stands at or past a mark as the crossings so far have left it.
  lemma {:induction false} CrossingsBalance(events: seq<Event>, k: Key, mark: real)
    requires forall i | 0 <= i < |events| :: events[i].kind.CommitEvent? ==> events[i].amount >= 0.0
    ensures Reached(mark, Used(events, k)) == Reached(mark, 0.0) + Rises(events, k, mark, CommitEvent)
            + Rises(events, k, mark, AdjustmentEvent) - Falls(events, k, mark)
  {
    if events != [] {
      var before, e := events[..|events| - 1], events[|events| - 1];
      assert events == before + [e];
      CrossingsBalance(before, k, mark);
      CrossingsAppend(before, e, k, mark);
    }
  }

  // --- Notices are queued by the commits that cross -------------------------------------------------

  // A step records at most one event, and queues for `k` the marks a commit of `k` crosses.
  ghost predicate NoticesFollow(l: Ledger, l': Ledger, k: Key, limit: Option<real>, percents: seq<nat>) {
    || (l'.events == l.events && forall p: nat :: ThresholdReached(k, p) in l'.outbox <==>
        ThresholdReached(k, p) in l.outbox)
    || (exists e :: l'.events == l.events + [e] && QueuesFor(l, l', e, k, limit, percents))
  }

  ghost predicate QueuesFor(l: Ledger, l': Ledger, e: Event, k: Key, limit: Option<real>, percents: seq<nat>) {
    forall p: nat :: ThresholdReached(k, p) in l'.outbox <==>
      || ThresholdReached(k, p) in l.outbox
      || (e.key == k && e.kind.CommitEvent?
          && p in CrossedThresholds(Used(l.events, k), Used(l.events, k) + e.amount, limit, percents))
  }

  lemma SettleNotices(l: Ledger, input: CommitInput, to: Key, amount: real, reservation: Option<Id>, k: Key,
                      limit: Option<real>, percents: seq<nat>)
    requires reservation.Some? ==> reservation.value < |l.reservations|
    requires to == k ==> input.limit == limit && input.percents == percents
    ensures NoticesFollow(l, Settle(l, input, to, amount, reservation).0, k, limit, percents)
  {
    var (l', outcome) := Settle(l, input, to, amount, reservation);
    if outcome.UsageCommitted? {
      assert QueuesFor(l, l', outcome.event, k, limit, percents);
    }
  }

  lemma StepNotices(s: System, a: Action, k: Key, limit: Option<real>, percents: seq<nat>)
    requires ChargesUnder(s.ledger, a, k, limit, percents)
    ensures NoticesFollow(s.ledger, Apply(s, a).ledger, k, limit, percents)
  {
    match a
    case AdjustUsage(input) => AdjustNotices(s.ledger, input, k, limit, percents);
    case Finish(CommitRequest(input), txNow, wall) => CommitNotices(s.ledger, input, txNow, wall, k, limit, percents);
    case _ =>
      assert Apply(s, a).ledger.events == s.ledger.events && Apply(s, a).ledger.outbox == s.ledger.outbox;
  }

  lemma AdjustNotices(l: Ledger, input: AdjustInput, k: Key, limit: Option<real>, percents: seq<nat>)
    ensures NoticesFollow(l, Adjust(l, input).0, k, limit, percents)
  {
    var (l', outcome) := Adjust(l, input);
    if outcome.Adjusted? { assert QueuesFor(l, l', outcome.event, k, limit, percents); }
  }

  lemma CommitNotices(l: Ledger, input: CommitInput, txNow: Time, wall: Time, k: Key, limit: Option<real>,
                      percents: seq<nat>)
    requires ChargedKey(l, input) == Some(k) ==> input.limit == limit && input.percents == percents
    ensures NoticesFollow(l, CommitLocked(l, input, txNow, wall).0, k, limit, percents)
  {
    match input.mode
    case ByReservation(id) =>
      if id < |l.reservations| {
        SettleNotices(l, input, l.reservations[id].key, l.reservations[id].amount, Some(id), k, limit, percents);
      }
    case Direct(meter, amount) =>
      var to := Key(input.customer, meter, input.period);
      SettleNotices(l.(reservations := ExpireKey(l.reservations, to, txNow)), input, to, amount, None, k, limit,
                    percents);
  }

  // In every run a threshold is queued exactly when some commit crossed its mark.
  lemma {:induction false} QueuedIffCommitCrossed(actions: seq<Action>, k: Key, limit: Option<real>,
                                                  percents: seq<nat>, p: nat)
    requires RunsUnder(actions, k, limit, percents)
    ensures var l := Run(actions).ledger;
            ThresholdReached(k, p) in l.outbox <==>
              Configured(p, limit, percents) && Rises(l.events, k, Mark(limit.value, p), CommitEvent) > 0
  {
    if actions != [] {
      var n := |actions| - 1;
      RunsUnderPrefix(actions, n, k, limit, percents);
      QueuedIffCommitCrossed(actions[..n], k, limit, percents, p);
      StepNotices(Run(actions[..n]), actions[n], k, limit, percents);
      var l, l' := Run(actions[..n]).ledger, Run(actions).ledger;
      if l'.events != l.events && Configured(p, limit, percents) {
        var e :| l'.events == l.events + [e] && QueuesFor(l, l', e, k, limit, percents);
        CrossingsAppend(l.events, e, k, Mark(limit.value, p));
      }
    }
  }

  lemma RunsUnderPrefix(actions: seq<Action>, n: nat, k: Key, limit: Option<real>, percents: seq<nat>)
    requires RunsUnder(actions, k, limit, percents) && n <= |actions|
    ensures RunsUnder(actions[..n], k, limit, percents)
  {
    forall i | 0 <= i < n ensures ChargesUnder(Run(actions[..n][..i]).ledger, actions[..n][i], k, limit, percents) {
      assert actions[..n][..i] == actions[..i];
    }
  }

  // --- When the notices are exact -------------------------------------------------------------------

  // Adjustments have made up for one another at the mark: at or past it they came down at least as
  // often as up, below it they came up at least as often as down.
  predicate Balanced(events: seq<Event>, k: Key, mark: real) {
    if mark <= Used(events, k) then Rises(events, k, mark, AdjustmentEvent) <= Falls(events, k, mark)
    else Falls(events, k, mark) <= Rises(events, k, mark, AdjustmentEvent)
  }

  // However usage is split into commits, races and adjustments, the thresholds queued for a key are
  // those its usage has reached if and only if its adjustments balance at every configured mark.
  lemma ExactIffAdjustmentsBalance(actions: seq<Action>, k: Key, limit: Option<real>, percents: seq<nat>)
    requires RunsUnder(actions, k, limit, percents)
    ensures QueuedExactly(Run(actions).ledger, k, limit, percents) <==>
              forall p: nat | p > 0 && Configured(p, limit, percents) ::
                Balanced(Run(actions).ledger.events, k, Mark(limit.value, p))
  {
    EveryRunIsWellFormed(actions);
    var l := Run(actions).ledger;
    forall p: nat | p > 0
      ensures (ThresholdReached(k, p) in l.outbox <==>
                 Configured(p, limit, percents) && Mark(limit.value, p) <= Used(l.events, k))
              <==> (Configured(p, limit, percents) ==> Balanced(l.events, k, Mark(limit.value, p)))
    {
      QueuedIffCommitCrossed(actions, k, limit, percents, p);
      if Configured(p, limit, percents) {
        MarkIsPositive(limit.value, p);
        CrossingsBalance(l.events, k, Mark(limit.value, p));
      }
    }
  }

  // One applied adjustment keeps exact notices exact if and only if it crosses no configured mark.
  lemma AdjustmentKeepsExactness(l: Ledger, input: AdjustInput, limit: Option<real>, percents: seq<nat>)
    requires QueuedExactly(l, input.key, limit, percents)
    requires Adjust(l, input).1.Adjusted?
    ensures QueuedExactly(Adjust(l, input).0, input.key, limit, percents) <==>
              forall p: nat | p > 0 && Configured(p, limit, percents) ::
                Reached(Mark(limit.value, p), Used(l.events, input.key))
                == Reached(Mark(limit.value, p), Used(l.events, input.key) + input.amount)
  {
    var l', k := Adjust(l, input).0, input.key;
    UsedAppend(l.events, Adjust(l, input).1.event, k);
    forall p: nat | p > 0
      ensures (ThresholdReached(k, p) in l'.outbox <==>
                 Configured(p, limit, percents) && Mark(limit.value, p) <= Used(l'.events, k))
              <==> (Configured(p, limit, percents) ==>
                      Reached(Mark(limit.value, p), Used(l.events, k))
                          == Reached(Mark(limit.value, p), Used(l'.events, k)))
    {
      assert ThresholdReached(k, p) in l'.outbox <==>
          Configured(p, limit, percents) && Mark(limit.value, p) <= Used(l.events, k);
    }
  }

  // The notices are exact throughout a run if and only if no adjustment ever crossed a configured mark.
  lemma {:induction false} AlwaysExactIffNoAdjustmentCrosses(actions: seq<Action>, k: Key, limit: Option<real>,
                                                             percents: seq<nat>)
    requires RunsUnder(actions, k, limit, percents)
    ensures (forall n: nat | n <= |actions| :: QueuedExactly(Run(actions[..n]).ledger, k, limit, percents)) <==>
              forall p: nat | p > 0 && Configured(p, limit, percents) ::
                  Uncrossed(Run(actions).ledger.events, k, Mark(limit.value, p))
  {
    ExactIffAdjustmentsBalance(actions, k, limit, percents);
    assert actions[..|actions|] == actions;
    if actions == [] {
      assert forall n: nat | n <= 0 :: actions[..n] == [];
    } else {
      var n := |actions| - 1;
      RunsUnderPrefix(actions, n, k, limit, percents);
      AlwaysExactIffNoAdjustmentCrosses(actions[..n], k, limit, percents);
      forall m: nat | m <= n ensures actions[..n][..m] == actions[..m] {}
      forall p: nat | p > 0 && Configured(p, limit, percents)
        ensures var mark := Mark(limit.value, p);
                && (Uncrossed(Run(actions).ledger.events, k, mark) ==>
                    Uncrossed(Run(actions[..n]).ledger.events, k, mark))
                && (Uncrossed(Run(actions[..n]).ledger.events, k, mark)
                    && Balanced(Run(actions).ledger.events, k, mark) ==>
                      Uncrossed(Run(actions).ledger.events, k, mark))
      {
        StepUncrossed(Run(actions[..n]), actions[n], k, limit, percents, Mark(limit.value, p));
      }
      assert forall m: nat | m <= |actions| :: m <= n || actions[..m] == actions;
    }
  }

  predicate Uncrossed(events: seq<Event>, k: Key, mark: real) {
    Rises(events, k, mark, AdjustmentEvent) == 0 && Falls(events, k, mark) == 0
  }

  lemma StepUncrossed(s: System, a: Action, k: Key, limit: Option<real>, percents: seq<nat>, mark: real)
    requires ChargesUnder(s.ledger, a, k, limit, percents)
    ensures var events, events' := s.ledger.events, Apply(s, a).ledger.events;
            && (Uncrossed(events', k, mark) ==> Uncrossed(events, k, mark))
            && (Uncrossed(events, k, mark) && Balanced(events', k, mark) ==> Uncrossed(events', k, mark))
  {
    StepNotices(s, a, k, limit, percents);
    var l, l' := s.ledger, Apply(s, a).ledger;
    if l'.events != l.events {
      var e :| l'.events == l.events + [e] && QueuesFor(l, l', e, k, limit, percents);
      CrossingsAppend(l.events, e, k, mark);
    }
  }

  // Without adjustments of the key the notices are exact, and a percentage of zero never fires.
  lemma ThresholdsTelescope(actions: seq<Action>, k: Key, limit: Option<real>, percents: seq<nat>)
    requires RunsUnder(actions, k, limit, percents)
    requires forall a | a in actions :: a.AdjustUsage? ==> a.adjust.key != k
    ensures QueuedExactly(Run(actions).ledger, k, limit, percents)
    ensures ThresholdReached(k, 0) !in Run(actions).ledger.outbox
  {
    var events := Run(actions).ledger.events;
    OnlyCommits(actions, k);
    EveryRunIsWellFormed(actions);
    forall p: nat | p > 0 && Configured(p, limit, percents) ensures Balanced(events, k, Mark(limit.value, p)) {
      CommitsDoNotAdjust(events, k, Mark(limit.value, p));
    }
    ExactIffAdjustmentsBalance(actions, k, limit, percents);
    QueuedIffCommitCrossed(actions, k, limit, percents, 0);
    CommitsDoNotAdjust(events, k, 0.0);
    CrossingsBalance(events, k, 0.0);
  }

  ghost predicate CommitsOnly(events: seq<Event>, k: Key) {
    forall e | e in events :: e.key == k ==> e.kind.CommitEvent?
  }

  lemma {:induction false} OnlyCommits(actions: seq<Action>, k: Key)
    requires forall a | a in actions :: a.AdjustUsage? ==> a.adjust.key != k
    ensures CommitsOnly(Run(actions).ledger.events, k)
  {
    if actions != [] {
      var n := |actions| - 1;
      OnlyCommits(actions[..n], k);
      StepOnlyCommits(Run(actions[..n]), actions[n], k);
    }
  }

  lemma StepOnlyCommits(s: System, a: Action, k: Key)
    requires CommitsOnly(s.ledger.events, k) && (a.AdjustUsage? ==> a.adjust.key != k)
    ensures CommitsOnly(Apply(s, a).ledger.events, k)
  {
    match a
    case Finish(CommitRequest(input), txNow, wall) =>
      var outcome := CommitLocked(s.ledger, input, txNow, wall).1;
      if outcome.UsageCommitted? {
        assert Apply(s, a).ledger.events == s.ledger.events
            || Apply(s, a).ledger.events == s.ledger.events + [outcome.event];
      }
    case _ =>
  }

  lemma {:induction false} CommitsDoNotAdjust(events: seq<Event>, k: Key, mark: real)
    requires CommitsOnly(events, k)
    ensures Uncrossed(events, k, mark)
  {
    if events != [] { CommitsDoNotAdjust(events[..|events| - 1], k, mark); }
  }

  // With adjustments mixed in, a threshold still appears at most once per key.
  lemma ThresholdQueuedAtMostOnce(actions: seq<Action>, k: Key, p: nat, i: nat, j: nat)
    requires i < |Run(actions).ledger.outbox| && j < |Run(actions).ledger.outbox|
    requires Run(actions).ledger.outbox[i] == Run(actions).ledger.outbox[j] == ThresholdReached(k, p)
    ensures i == j
  {
    EveryRunIsWellFormed(actions);
  }

  const TOKENS := Key(0, "cloud_tokens", "all")

  // An adjustment queues nothing even when it carries usage over a mark: after it, and after the
  // commit that follows, usage is past 80 percent of 100 and no notice is queued. One is queued
  // only if a later adjustment brings usage back down and a commit crosses the mark again.
  lemma AdjustmentCanPassAMark()
    ensures var l1 := Adjust(EMPTY_LEDGER, AdjustInput(TOKENS, 90.0, "a", true, true)).0;
            var (l2, outcome) := Commit(l1, CommitInput(0, Direct("cloud_tokens", 1.0), Some(100.0), "all", [80],
                                                        "c"), 0, 0);
            && outcome.UsageCommitted?
            && Used(l2.events, TOKENS) == 91.0 && Mark(100.0, 80) == 80.0
            && l1.outbox == l2.outbox == []
  {
    var e1, e2 := Event(TOKENS, 90.0, "a", None, AdjustmentEvent), Event(TOKENS, 1.0, "c", None, CommitEvent);
    UsedAppend([], e1, TOKENS);
    UsedAppend([e1], e2, TOKENS);
    assert [] + [e1] == [e1];
    assert ExpireKey([], TOKENS, 0) == [];
    assert forall p :: p !in CrossedThresholds(90.0, 91.0, Some(100.0), [80]);
  }

  // Nor does one take a notice back: a commit of 85 out of 100 queues the 80 percent notice, and an
  // adjustment down to 75 leaves it standing.
  lemma AdjustmentCanLeaveANotice()
    ensures var (l1, outcome) := Commit(EMPTY_LEDGER, CommitInput(0, Direct("cloud_tokens", 85.0), Some(100.0), "all",
                                                                  [80], "c"), 0, 0);
            var l2 := Adjust(l1, AdjustInput(TOKENS, -10.0, "a", true, true)).0;
            && outcome.UsageCommitted?
            && Used(l1.events, TOKENS) == 85.0 && Used(l2.events, TOKENS) == 75.0 < Mark(100.0, 80)
            && l1.outbox == l2.outbox == [ThresholdReached(TOKENS, 80)]
  {
    var e1, e2 := Event(TOKENS, 85.0, "c", None, CommitEvent), Event(TOKENS, -10.0, "a", None, AdjustmentEvent);
    UsedAppend([], e1, TOKENS);
    UsedAppend([e1], e2, TOKENS);
    assert [] + [e1] == [e1];
    assert ExpireKey([], TOKENS, 0) == [];
    assert CrossedThresholds(0.0, 85.0, Some(100.0), [80]) == [80];
    DifferentNames("c", "a");
    assert !e1.NamedBy(0, "a");
  }

  lemma DifferentNames(c: string, a: string)
    requires c == "c" && a == "a"
    ensures c != a
  {
    assert c[0] != a[0];
  }
}
