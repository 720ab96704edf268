/**
  The fixed-window limiter: a swept, capped table of per-client counters, and the counter per
  client and window, never swept and never capped, that it stands for.
 */
module RateLimiter {
  import opened Wrappers

  const WINDOW_SECS: nat := 60
  const SWEEP_MIN_ENTRIES: nat := 1024
  const MAX_TRACKED_CLIENTS: nat := 100_000

  datatype Window = Window(started: nat, count: nat)

  datatype RateDecision = Allow | Deny(retryAfter: nat)

  datatype Limiter = Limiter(windows: map<string, Window>, sweptWindow: nat)

  function WindowOf(now: nat): nat {
    now - now % WINDOW_SECS
  }

  function Swept(l: Limiter, window: nat): Limiter {
    if l.sweptWindow != window && |l.windows| >= SWEEP_MIN_ENTRIES then
      Limiter(map client | client in l.windows && l.windows[client].started == window :: l.windows[client], window)
    else l
  }

  // The table is full and does not know the client.
  predicate RefusesNewClient(l: Limiter, client: string, window: nat) {
    var swept := Swept(l, window);
    |swept.windows| >= MAX_TRACKED_CLIENTS && client !in swept.windows
  }

  function Count(l: Limiter, client: string, window: nat): nat {
    if client in l.windows && l.windows[client].started == window then l.windows[client].count else 0
  }

  function RetryAfter(now: nat): (secs: nat)
    ensures 1 <= secs <= WINDOW_SECS && WindowOf(now + secs) == WindowOf(now) + WINDOW_SECS
  {
    WindowOf(now) + WINDOW_SECS - now
  }

  function Checked(l: Limiter, client: string, limit: nat, now: nat): (Limiter, RateDecision) {
    var window := WindowOf(now);
    var swept := Swept(l, window);
    if RefusesNewClient(l, client, window) then (swept, Deny(RetryAfter(now)))
    else
      var spent := Count(swept, client, window);
      if spent >= limit then
        (swept.(windows := swept.windows[client := Window(window, spent)]), Deny(RetryAfter(now)))
      else
        (swept.(windows := swept.windows[client := Window(window, spent + 1)]), Allow)
  }

  lemma SweptSize(l: Limiter, window: nat)
    ensures |Swept(l, window).windows| <= |l.windows|
  {
    var swept := Swept(l, window).windows;
    SubsetSize(swept.Keys, l.windows.Keys);
    assert |swept.Keys| == |swept| && |l.windows.Keys| == |l.windows|;
  }

  class RateLimiter {
    var windows: map<string, Window>
    var sweptWindow: nat

    function State(): Limiter
      reads this
    {
      Limiter(windows, sweptWindow)
    }

    ghost predicate Valid()
      reads this
    {
      |windows| <= MAX_TRACKED_CLIENTS
    }

    constructor ()
      ensures Valid() && State() == Limiter(map[], 0)
    {
      windows, sweptWindow := map[], 0;
    }

    // Drop every client whose window is not this one.
    method Retain(window: nat)
      modifies `windows
      ensures windows.Keys == set key | key in old(windows) && old(windows)[key].started == window
      ensures forall key | key in windows :: windows[key] == old(windows)[key]
    {
      var keys := windows.Keys;
      while keys != {}
        invariant keys <= windows.Keys <= old(windows).Keys
        invariant forall key | key in windows :: windows[key] == old(windows)[key]
        invariant forall key | key in old(windows) :: key in windows <==>
            key in keys || old(windows)[key].started == window
      {
        var key :| key in keys;
        keys := keys - {key};
        if windows[key].started != window {
          windows := windows - {key};
        }
      }
    }

    method Sweep(window: nat)
      modifies this
      ensures State() == Swept(old(State()), window)
    {
      if sweptWindow != window && |windows| >= SWEEP_MIN_ENTRIES {
        Retain(window);
        sweptWindow := window;
        assert windows == Swept(old(State()), window).windows;
      }
    }

    // Spend one unit of the client's budget for the window containing `now`.
    method Check(client: string, limit: nat, now: nat) returns (decision: RateDecision)
      requires Valid()
      modifies this
      ensures Valid()
      ensures (State(), decision) == Checked(old(State()), client, limit, now)
    {
      var window := now - now % WINDOW_SECS;
      var retryAfter := window + WINDOW_SECS - now;
      if retryAfter < 1 {
        retryAfter := 1;
      }
      Sweep(window);
      SweptSize(old(State()), window);
      ghost var spent := Count(State(), client, window);
      ghost var swept := windows;
      if |windows| >= MAX_TRACKED_CLIENTS && client !in windows {
        return Deny(retryAfter);
      }
      if client !in windows {
        windows := windows[client := Window(window, 0)];
      }
      if windows[client].started != window {
        windows := windows[client := Window(window, 0)];
      }
      assert windows == swept[client := Window(window, spent)];
      if windows[client].count >= limit {
        decision := Deny(retryAfter);
      } else {
        windows := windows[client := Window(window, windows[client].count + 1)];
        assert windows == swept[client := Window(window, spent + 1)];
        decision := Allow;
      }
    }
  }

  // --- Runs -----------------------------------------------------------------------------------------

  datatype Call = Call(client: string, limit: nat, now: nat)

  function Run(calls: seq<Call>): (Limiter, seq<RateDecision>) {
    if calls == [] then (Limiter(map[], 0), [])
    else
      var (l, decisions) := Run(calls[..|calls| - 1]);
      var c := calls[|calls| - 1];
      var (l', decision) := Checked(l, c.client, c.limit, c.now);
      (l', decisions + [decision])
  }

  ghost predicate NonDecreasing(calls: seq<Call>) {
    forall i, j | 0 <= i < j < |calls| :: calls[i].now <= calls[j].now
  }

  // How often a client was allowed in a window: the counter that is never swept.
  function Allowed(calls: seq<Call>, decisions: seq<RateDecision>, client: string, window: nat): nat
    requires |decisions| == |calls|
  {
    if calls == [] then 0
    else
      var n := |calls| - 1;
      Allowed(calls[..n], decisions[..n], client, window)
      + (if calls[n].client == client && WindowOf(calls[n].now) == window && decisions[n].Allow? then 1 else 0)
  }

  // The reference limiter: allow while the never-swept counter is below the limit.
  function Reference(calls: seq<Call>): (decisions: seq<RateDecision>)
    ensures |decisions| == |calls|
  {
    if calls == [] then []
    else
      var n := |calls| - 1;
      var before := Reference(calls[..n]);
      var c := calls[n];
      before + [if Allowed(calls[..n], before, c.client, WindowOf(c.now)) < c.limit then Allow
                else Deny(RetryAfter(c.now))]
  }

  // The distinct clients that called in a window.
  function Callers(calls: seq<Call>, window: nat): set<string> {
    set i | 0 <= i < |calls| && WindowOf(calls[i].now) == window :: calls[i].client
  }

  function LastWindow(calls: seq<Call>): nat {
    if calls == [] then 0 else WindowOf(calls[|calls| - 1].now)
  }

  lemma WindowMonotone(a: nat, b: nat)
    requires a <= b
    ensures WindowOf(a) <= WindowOf(b)
  {
    assert WindowOf(a) == (a / 60) * 60 && WindowOf(b) == (b / 60) * 60;
  }

  // The table and the calls behind it: entries are callers of their window, current counts are
  // the true counts, and a table swept in this window holds nothing older.
  ghost predicate Tracks(l: Limiter, calls: seq<Call>, decisions: seq<RateDecision>)
    requires |decisions| == |calls|
  {
    var last := LastWindow(calls);
    && |l.windows| <= MAX_TRACKED_CLIENTS
    && l.sweptWindow <= last
    && (forall c | c in l.windows :: l.windows[c].started <= last && c in Callers(calls, l.windows[c].started))
    && (l.sweptWindow == last ==> forall c | c in l.windows :: l.windows[c].started == last)
    && (forall c, w: nat | w >= last :: Count(l, c, w) == Allowed(calls, decisions, c, w))
  }

  lemma CallersGrow(calls: seq<Call>, c: Call, window: nat)
    ensures Callers(calls + [c], window) == Callers(calls, window) + (if WindowOf(c.now) == window then {c.client}
                                                                      else {})
  {
    var all := calls + [c];
    forall client | client in Callers(calls, window) ensures client in Callers(all, window) {
      var i :| 0 <= i < |calls| && WindowOf(calls[i].now) == window && calls[i].client == client;
      assert all[i] == calls[i];
    }
    if WindowOf(c.now) == window { assert all[|calls|] == c; }
  }

  lemma AllowedGrows(calls: seq<Call>, decisions: seq<RateDecision>, c: Call, d: RateDecision, client: string,
                     window: nat)
    requires |decisions| == |calls|
    ensures Allowed(calls + [c], decisions + [d], client, window) == Allowed(calls, decisions, client, window)
            + (if c.client == client && WindowOf(c.now) == window && d.Allow? then 1 else 0)
  {
    assert (calls + [c])[..|calls|] == calls && (decisions + [d])[..|calls|] == decisions;
  }

  // Sweeping for a window no earlier than the last loses no count that can still matter.
  lemma SweepTracks(l: Limiter, calls: seq<Call>, decisions: seq<RateDecision>, window: nat)
    requires |decisions| == |calls| && Tracks(l, calls, decisions) && LastWindow(calls) <= window
    ensures var swept := Swept(l, window);
            && swept.windows.Keys <= l.windows.Keys && |swept.windows| <= MAX_TRACKED_CLIENTS
            && (forall c | c in swept.windows :: swept.windows[c] == l.windows[c])
            && swept.sweptWindow <= window
            && (swept.sweptWindow == window ==> forall c | c in swept.windows :: swept.windows[c].started == window)
            && (|swept.windows| >= SWEEP_MIN_ENTRIES ==> swept.sweptWindow == window)
            && (forall c, w: nat | w >= window :: Count(swept, c, w) == Allowed(calls, decisions, c, w))
  {
    var swept := Swept(l, window);
    if swept != l {
      SubsetSize(swept.windows.Keys, l.windows.Keys);
      assert |swept.windows.Keys| == |swept.windows| && |l.windows.Keys| == |l.windows|;
    }
  }

  lemma SubsetSize(a: set<string>, b: set<string>)
    requires a <= b
    ensures |a| <= |b|
  {
    assert b == a + (b - a);
  }

  // One check touches at most one entry, and adds one to its count exactly when it allows.
  lemma CheckedMeans(l: Limiter, client: string, limit: nat, now: nat)
    requires forall c | c in l.windows :: l.windows[c].started <= WindowOf(now)
    ensures var (l', d) := Checked(l, client, limit, now);
            var swept := Swept(l, WindowOf(now));
            && l'.sweptWindow == swept.sweptWindow
            && (d.Allow? ==> !RefusesNewClient(l, client, WindowOf(now)))
            && l'.windows.Keys == swept.windows.Keys
               + (if RefusesNewClient(l, client, WindowOf(now)) then {} else {client})
            && (forall c | c in l'.windows :: c == client || l'.windows[c] == swept.windows[c])
            && (client in l'.windows ==> l'.windows[client].started == WindowOf(now))
            && forall c, w: nat | w >= WindowOf(now) ::
                 Count(l', c, w) == Count(swept, c, w) + (if c == client && w == WindowOf(now) && d.Allow? then 1
                                                          else 0)
  {
    var l', swept := Checked(l, client, limit, now).0, Swept(l, WindowOf(now));
    if !RefusesNewClient(l, client, WindowOf(now)) {
      var entry := l'.windows[client];
      assert l'.windows == swept.windows[client := entry];
      assert l'.windows.Keys == swept.windows.Keys + {client};
    }
  }

  lemma StepCounts(l: Limiter, calls: seq<Call>, decisions: seq<RateDecision>, c: Call, client: string, w: nat)
    requires |decisions| == |calls| && Tracks(l, calls, decisions) && LastWindow(calls) <= WindowOf(c.now) <= w
    ensures var (l', d) := Checked(l, c.client, c.limit, c.now);
            Count(l', client, w) == Allowed(calls + [c], decisions + [d], client, w)
  {
    SweepTracks(l, calls, decisions, WindowOf(c.now));
    CheckedMeans(l, c.client, c.limit, c.now);
    AllowedGrows(calls, decisions, c, Checked(l, c.client, c.limit, c.now).1, client, w);
  }

  lemma StepCallers(l: Limiter, calls: seq<Call>, decisions: seq<RateDecision>, c: Call, client: string)
    requires |decisions| == |calls| && Tracks(l, calls, decisions) && LastWindow(calls) <= WindowOf(c.now)
    requires client in Checked(l, c.client, c.limit, c.now).0.windows
    ensures var started := Checked(l, c.client, c.limit, c.now).0.windows[client].started;
            started <= WindowOf(c.now) && client in Callers(calls + [c], started)
  {
    SweepTracks(l, calls, decisions, WindowOf(c.now));
    CheckedMeans(l, c.client, c.limit, c.now);
    CallersGrow(calls, c, Checked(l, c.client, c.limit, c.now).0.windows[client].started);
  }

  lemma StepTracks(l: Limiter, calls: seq<Call>, decisions: seq<RateDecision>, c: Call)
    requires |decisions| == |calls| && Tracks(l, calls, decisions) && LastWindow(calls) <= WindowOf(c.now)
    ensures var (l', d) := Checked(l, c.client, c.limit, c.now);
            Tracks(l', calls + [c], decisions + [d])
  {
    var window := WindowOf(c.now);
    var (l', d) := Checked(l, c.client, c.limit, c.now);
    forall client, w: nat | w >= window
      ensures Count(l', client, w) == Allowed(calls + [c], decisions + [d], client, w)
    {
      StepCounts(l, calls, decisions, c, client, w);
    }
    forall client | client in l'.windows
      ensures l'.windows[client].started <= window && client in Callers(calls + [c], l'.windows[client].started)
    {
      StepCallers(l, calls, decisions, c, client);
    }
    SweepTracks(l, calls, decisions, window);
    CheckedMeans(l, c.client, c.limit, c.now);
    CheckedSize(l, c.client, c.limit, c.now);
  }

  lemma CheckedSize(l: Limiter, client: string, limit: nat, now: nat)
    requires forall c | c in l.windows :: l.windows[c].started <= WindowOf(now)
    requires |Swept(l, WindowOf(now)).windows| <= MAX_TRACKED_CLIENTS
    ensures |Checked(l, client, limit, now).0.windows| <= MAX_TRACKED_CLIENTS
  {
    var l', swept := Checked(l, client, limit, now).0.windows, Swept(l, WindowOf(now)).windows;
    CheckedMeans(l, client, limit, now);
    assert |l'| == |l'.Keys| && |swept| == |swept.Keys|;
    if client in swept { assert swept.Keys + {client} == swept.Keys; }
  }

  lemma FullTable(l: Limiter, calls: seq<Call>, decisions: seq<RateDecision>, client: string, window: nat)
    requires |decisions| == |calls| && Tracks(l, calls, decisions) && LastWindow(calls) <= window
    requires RefusesNewClient(l, client, window)
    ensures |Callers(calls, window)| >= MAX_TRACKED_CLIENTS
    ensures client in Callers(calls, window) ==> |Callers(calls, window)| > MAX_TRACKED_CLIENTS
  {
    SweepTracks(l, calls, decisions, window);
    var tracked := Swept(l, window).windows.Keys;
    forall key | key in tracked ensures key in Callers(calls, window) {
      assert l.windows[key].started == window;
    }
    assert |tracked| == |Swept(l, window).windows|;
    SubsetSize(tracked, Callers(calls, window));
    if client in Callers(calls, window) {
      SubsetSize(tracked + {client}, Callers(calls, window));
    }
  }

  lemma RunAppend(calls: seq<Call>, c: Call)
    ensures var (l, decisions) := Run(calls);
            var (l', d) := Checked(l, c.client, c.limit, c.now);
            Run(calls + [c]) == (l', decisions + [d])
  {
    assert (calls + [c])[..|calls|] == calls;
  }

  // Time has not gone back before the last call, nor before the window of that call.
  lemma NonDecreasingAppend(calls: seq<Call>, c: Call)
    requires NonDecreasing(calls + [c])
    ensures NonDecreasing(calls) && LastWindow(calls) <= WindowOf(c.now)
  {
    forall i, j | 0 <= i < j < |calls| ensures calls[i].now <= calls[j].now {
      assert (calls + [c])[i].now <= (calls + [c])[j].now;
    }
    if calls != [] {
      assert (calls + [c])[|calls| - 1].now <= (calls + [c])[|calls|].now;
      WindowMonotone(calls[|calls| - 1].now, c.now);
    }
  }

  lemma {:induction false} EveryRunTracks(calls: seq<Call>)
    requires NonDecreasing(calls)
    ensures |Run(calls).1| == |calls| && Tracks(Run(calls).0, calls, Run(calls).1)
  {
    if calls != [] {
      var before, c := calls[..|calls| - 1], calls[|calls| - 1];
      assert calls == before + [c];
      NonDecreasingAppend(before, c);
      EveryRunTracks(before);
      StepTracks(Run(before).0, before, Run(before).1, c);
      RunAppend(before, c);
    }
  }

  // Each call is allowed exactly when its client's true count in the window is below the limit,
  // unless the table is full; the table never exceeds its cap.
  lemma DecidesByTrueCount(calls: seq<Call>, c: Call)
    requires NonDecreasing(calls + [c])
    ensures |Run(calls).1| == |calls|
    ensures var (l, decisions) := Run(calls);
            var decision := Checked(l, c.client, c.limit, c.now).1;
            && |l.windows| <= MAX_TRACKED_CLIENTS
            && (decision.Allow? <==>
                  && !RefusesNewClient(l, c.client, WindowOf(c.now))
                  && Allowed(calls, decisions, c.client, WindowOf(c.now)) < c.limit)
            && (decision.Deny? ==> decision.retryAfter == RetryAfter(c.now))
  {
    NonDecreasingAppend(calls, c);
    EveryRunTracks(calls);
    SweepTracks(Run(calls).0, calls, Run(calls).1, WindowOf(c.now));
  }

  // A new client is refused for fullness only after 100,000 distinct clients called in the window.
  lemma FullOnlyWhenCrowded(calls: seq<Call>, c: Call)
    requires NonDecreasing(calls + [c])
    requires RefusesNewClient(Run(calls).0, c.client, WindowOf(c.now))
    ensures |Callers(calls, WindowOf(c.now))| >= MAX_TRACKED_CLIENTS
    ensures c.client in Callers(calls, WindowOf(c.now)) ==> |Callers(calls, WindowOf(c.now))| > MAX_TRACKED_CLIENTS
  {
    NonDecreasingAppend(calls, c);
    EveryRunTracks(calls);
    var l, window := Run(calls).0, WindowOf(c.now);
    FullTable(l, calls, Run(calls).1, c.client, window);
  }

  // A new call is refused for fullness nowhere along the run.
  ghost predicate NeverFull(calls: seq<Call>) {
    calls == []
    || var before, c := calls[..|calls| - 1], calls[|calls| - 1];
       NeverFull(before) && !RefusesNewClient(Run(before).0, c.client, WindowOf(c.now))
  }

  // While no call is refused for fullness, the limiter is the reference.
  lemma {:induction false} RefinesReference(calls: seq<Call>)
    requires NonDecreasing(calls) && NeverFull(calls)
    ensures Run(calls).1 == Reference(calls)
  {
    if calls != [] {
      var before, c := calls[..|calls| - 1], calls[|calls| - 1];
      assert calls == before + [c];
      NonDecreasingAppend(before, c);
      RefinesReference(before);
      DecidesByTrueCount(before, c);
      RunAppend(before, c);
    }
  }

  // Hence with at most 100,000 distinct callers in each window the limiter is the reference.
  lemma {:induction false} UncrowdedIsNeverFull(calls: seq<Call>)
    requires NonDecreasing(calls)
    requires forall window: nat :: |Callers(calls, window)| <= MAX_TRACKED_CLIENTS
    ensures NeverFull(calls) && Run(calls).1 == Reference(calls)
  {
    if calls != [] {
      var before, c := calls[..|calls| - 1], calls[|calls| - 1];
      assert calls == before + [c];
      NonDecreasingAppend(before, c);
      forall window: nat ensures |Callers(before, window)| <= MAX_TRACKED_CLIENTS {
        CallersGrow(before, c, window);
        SubsetSize(Callers(before, window), Callers(calls, window));
      }
      UncrowdedIsNeverFull(before);
      var window := WindowOf(c.now);
      if RefusesNewClient(Run(before).0, c.client, window) {
        FullOnlyWhenCrowded(before, c);
        CallersGrow(before, c, window);
      }
    }
    RefinesReference(calls);
  }

  // Under limits of at most `cap`, a client is allowed at most `cap` times in any one window.
  lemma {:induction false} AtMostLimitPerWindow(calls: seq<Call>, client: string, window: nat, cap: nat)
    requires NonDecreasing(calls)
    requires forall c | c in calls && c.client == client :: c.limit <= cap
    ensures |Run(calls).1| == |calls|
    ensures Allowed(calls, Run(calls).1, client, window) <= cap
  {
    if calls != [] {
      var before, c := calls[..|calls| - 1], calls[|calls| - 1];
      assert calls == before + [c];
      NonDecreasingAppend(before, c);
      AtMostLimitPerWindow(before, client, window, cap);
      DecidesByTrueCount(before, c);
      RunAppend(before, c);
      AllowedGrows(before, Run(before).1, c, Checked(Run(before).0, c.client, c.limit, c.now).1, client, window);
    }
  }

  // Any calls through the table in place are decided as the run says; with time not going back and
  // nobody refused for fullness, as by a counter per client and window that is never swept.
  method Serve(calls: seq<Call>) returns (limiter: RateLimiter, decisions: seq<RateDecision>)
    ensures fresh(limiter) && limiter.Valid()
    ensures (limiter.State(), decisions) == Run(calls)
    ensures NonDecreasing(calls) && NeverFull(calls) ==> decisions == Reference(calls)
  {
    limiter := new RateLimiter();
    decisions := [];
    for i := 0 to |calls|
      invariant fresh(limiter) && limiter.Valid()
      invariant (limiter.State(), decisions) == Run(calls[..i])
    {
      assert calls[..i + 1] == calls[..i] + [calls[i]];
      RunAppend(calls[..i], calls[i]);
      var decision := limiter.Check(calls[i].client, calls[i].limit, calls[i].now);
      decisions := decisions + [decision];
    }
    assert calls[..|calls|] == calls;
    if NonDecreasing(calls) && NeverFull(calls) { RefinesReference(calls); }
  }
}
