/** Deletion requests over whole runs, with any commercial transactions in between. */
module PrivacyRuns {
  import opened Wrappers
  import L = LicenseTables
  import LR = LicenseRuns
  import C = Commerce
  import CR = CommerceRuns
  import E = Entitlements
  import O = Overrides
  import opened Privacy

  datatype Action =
    | Ask(customer: Id)
    | Withdraw(customer: Id, now: Time)
    | Advance(request: Id, window: int, now: Time)
    | Reject(request: Id, now: Time)
    | Execute(request: Id, now: Time)
    | Commercial(action: CR.Action)
    | Enroll(customer: Id, profile: Profile)   // a profile is provisioned
    | Except(productKnown: bool, customer: Id, product: string, key: O.Key, value: Option<E.FeatureValue>,
             expiresAt: Option<Time>)   // an operator sets or clears an entitlement override

  function Apply(a: Account, act: Action): Account {
    match act
    case Ask(customer) => RequestDeletion(a, customer).0
    case Withdraw(customer, now) => CancelRequest(a, customer, now).0
    case Advance(id, window, now) => AdvanceRequest(a, id, window, now).0
    case Reject(id, now) => RejectRequest(a, id, now).0
    case Execute(id, now) => ExecuteDeletion(a, id, now).0
    case Commercial(action) => a.(store := CR.Apply(a.store, action))
    case Enroll(customer, profile) =>
      if customer in a.profiles then a else a.(profiles := a.profiles[customer := profile])
    case Except(productKnown, customer, product, key, value, expiresAt) =>
      a.(overrides := O.SetOverride(a.overrides, customer in a.profiles, productKnown, customer, product, key, value,
                                    expiresAt).0)
  }

  const EMPTY_ACCOUNT := Account([], [], map[], [], C.EMPTY_STORE)

  function Run(actions: seq<Action>): Account {
    if actions == [] then EMPTY_ACCOUNT
    else Apply(Run(actions[..|actions| - 1]), actions[|actions| - 1])
  }

  // --- At most one open request per customer -----------------------------------------------------

  ghost predicate OneOpen(rs: seq<Request>) {
    forall i, j | 0 <= i < j < |rs| :: !(rs[i].status.Open() && rs[j].status.Open() && rs[i].customer == rs[j].customer)
  }

  // --- Each request's history is the path to its status -------------------------------------------

  function HistoryOf(h: seq<Entry>, id: Id): seq<Entry> {
    if h == [] then []
    else
      var last := h[|h| - 1];
      HistoryOf(h[..|h| - 1], id) + (if last.request == id then [last] else [])
  }

  lemma HistoryAppend(h: seq<Entry>, e: Entry, id: Id)
    ensures HistoryOf(h + [e], id) == HistoryOf(h, id) + (if e.request == id then [e] else [])
  {
    assert (h + [e])[..|h|] == h;
  }

  predicate Goes(e: Entry, before: DeletionStatus, after: DeletionStatus) {
    e.before == before && e.after == after
  }

  // How far along the forward path a history has come: requested, verified, cooling off,
  // processing, completed. Processing begins only once the window given at cooling-off is over.
  predicate Forward(h: seq<Entry>) {
    && |h| <= 4
    && (|h| >= 1 ==> Goes(h[0], Requested, Verified))
    && (|h| >= 2 ==> Goes(h[1], Verified, CoolingOff))
    && (|h| >= 3 ==> Goes(h[2], CoolingOff, Processing) && h[2].at >= h[1].at + h[1].window)
    && (|h| >= 4 ==> Goes(h[3], Processing, Completed))
  }

  function StatusAfter(h: seq<Entry>): DeletionStatus
    requires Forward(h)
  {
    if |h| == 0 then Requested else if |h| == 1 then Verified else if |h| == 2 then CoolingOff
    else if |h| == 3 then Processing else Completed
  }

  // The row's status is where its history leads; a stopped request left the path before processing.
  predicate Accounts(row: Request, h: seq<Entry>) {
    if row.status.Rejected? || row.status.Canceled? then
      |h| > 0 && |h| <= 3 && Forward(h[..|h| - 1]) && Goes(h[|h| - 1], StatusAfter(h[..|h| - 1]), row.status)
    else
      && Forward(h) && row.status == StatusAfter(h)
      && (|h| >= 2 ==> row.coolingOffUntil == Some(h[1].at + h[1].window))
  }

  ghost predicate Orderly(a: Account) {
    && OneOpen(a.requests)
    && (forall i | 0 <= i < |a.history| :: a.history[i].request < |a.requests|)
    && (forall id | 0 <= id < |a.requests| :: Accounts(a.requests[id], HistoryOf(a.history, id)))
  }

  lemma {:induction false} NoHistoryYet(h: seq<Entry>, id: Id)
    requires forall i | 0 <= i < |h| :: h[i].request < id
    ensures HistoryOf(h, id) == []
  {
    if h != [] { NoHistoryYet(h[..|h| - 1], id); }
  }

  lemma OneOpenUpdate(rs: seq<Request>, id: Id, row: Request)
    requires OneOpen(rs) && id < |rs| && rs[id].status.Open() && row.customer == rs[id].customer
    ensures OneOpen(rs[id := row])
  {
  }

  // Other requests keep their rows and their histories.
  lemma OthersAccount(a: Account, e: Entry, other: Id)
    requires Orderly(a) && other < |a.requests| && e.request != other
    ensures Accounts(a.requests[other], HistoryOf(a.history + [e], other))
  {
    HistoryAppend(a.history, e, other);
    assert HistoryOf(a.history, other) + [] == HistoryOf(a.history, other);
  }

  // The request's row after the move is where its history then leads.
  predicate MoveAccounts(a: Account, id: Id, status: DeletionStatus, until: Option<Time>, at: Time, window: int)
    requires id < |a.requests|
  {
    var row := a.requests[id];
    Accounts(row.(status := status, coolingOffUntil := if until.Some? then until else row.coolingOffUntil),
             HistoryOf(a.history, id) + [Entry(id, row.status, status, at, window)])
  }

  lemma MovedAccounts(a: Account, id: Id, status: DeletionStatus, until: Option<Time>, at: Time, window: int, other: Id)
    requires Orderly(a) && id < |a.requests| && MoveAccounts(a, id, status, until, at, window)
    requires other < |a.requests|
    ensures var a' := Move(a, id, status, until, at, window);
            Accounts(a'.requests[other], HistoryOf(a'.history, other))
  {
    var e := Entry(id, a.requests[id].status, status, at, window);
    if other == id {
      HistoryAppend(a.history, e, id);
    } else {
      OthersAccount(a, e, other);
    }
  }

  lemma MoveKeepsOrderly(a: Account, id: Id, status: DeletionStatus, until: Option<Time>, at: Time, window: int)
    requires Orderly(a) && id < |a.requests| && a.requests[id].status.Open()
    requires MoveAccounts(a, id, status, until, at, window)
    ensures Orderly(Move(a, id, status, until, at, window))
  {
    var a' := Move(a, id, status, until, at, window);
    OneOpenUpdate(a.requests, id, a'.requests[id]);
    forall other: Id | other < |a'.requests| ensures Accounts(a'.requests[other], HistoryOf(a'.history, other)) {
      MovedAccounts(a, id, status, until, at, window, other);
    }
  }

  lemma AskKeepsOrderly(a: Account, customer: Id)
    requires Orderly(a)
    ensures Orderly(RequestDeletion(a, customer).0)
  {
    NoHistoryYet(a.history, |a.requests|);
  }

  // Stopping a request, by its customer or by an operator.
  lemma StopKeepsOrderly(a: Account, id: Id, status: DeletionStatus, now: Time)
    requires Orderly(a) && id < |a.requests| && CanStop(a.requests[id].status) && (status.Rejected? || status.Canceled?)
    ensures Orderly(Move(a, id, status, None, now, 0))
  {
    StopAccounts(a, id, status, now);
    MoveKeepsOrderly(a, id, status, None, now, 0);
  }

  lemma ExecuteKeepsOrderly(a: Account, id: Id, now: Time)
    requires Orderly(a) && id < |a.requests| && a.requests[id].status.Processing?
    ensures Orderly(Move(a, id, Completed, None, now, 0))
  {
    MoveForwardKeepsOrderly(a, id, Completed, now, 0);
  }

  // The one open request stopped, its customer has none.
  lemma StopLeavesNoneOpen(a: Account, id: Id, status: DeletionStatus, now: Time)
    requires Orderly(a) && id < |a.requests| && a.requests[id].status.Open() && !status.Open()
    ensures var rs := Move(a, id, status, None, now, 0).requests;
            rs[id].status == status && forall r | r in rs :: !(r.customer == rs[id].customer && r.status.Open())
  {
  }

  // Only the requests and their history matter.
  lemma OrderlyReads(a: Account, b: Account)
    requires Orderly(a) && a.requests == b.requests && a.history == b.history
    ensures Orderly(b)
  {
  }

  lemma StepKeepsOrderly(a: Account, act: Action)
    requires Orderly(a)
    ensures Orderly(Apply(a, act))
  {
    match act
    case Ask(customer) => AskKeepsOrderly(a, customer);
    case Withdraw(customer, now) =>
      var id := FindOpen(a.requests, customer);
      if id.Some? && CanStop(a.requests[id.value].status) { StopKeepsOrderly(a, id.value, Canceled, now); }
    case Reject(id, now) =>
      if id < |a.requests| && CanStop(a.requests[id].status) { StopKeepsOrderly(a, id, Rejected, now); }
    case Advance(id, window, now) => AdvanceKeepsOrderly(a, id, window, now);
    case Execute(id, now) =>
      if ExecuteDeletion(a, id, now).1.Moved? {
        ExecuteKeepsOrderly(a, id, now);
        OrderlyReads(Move(a, id, Completed, None, now, 0), ExecuteDeletion(a, id, now).0);
      }
    case _ => OrderlyReads(a, Apply(a, act));
  }

  lemma StopAccounts(a: Account, id: Id, status: DeletionStatus, now: Time)
    requires Orderly(a) && id < |a.requests| && CanStop(a.requests[id].status) && (status.Rejected? || status.Canceled?)
    ensures var e := Entry(id, a.requests[id].status, status, now, 0);
            Accounts(a.requests[id].(status := status), HistoryOf(a.history, id) + [e])
  {
    var h := HistoryOf(a.history, id);
    assert (h + [Entry(id, a.requests[id].status, status, now, 0)])[..|h|] == h;
  }

  // One more step on the forward path, stamping the window on the way into cooling off and checking
  // it on the way out.
  lemma ForwardAccounts(row: Request, h: seq<Entry>, id: Id, status: DeletionStatus, at: Time, window: int)
    requires Accounts(row, h) && row.status.Open()
    requires NextState(row.status) == Some(status) || (row.status.Processing? && status.Completed?)
    requires status.Processing? ==> row.coolingOffUntil.Some? && row.coolingOffUntil.value <= at
    ensures var until := if status.CoolingOff? then Some(at + window) else row.coolingOffUntil;
            Accounts(row.(status := status, coolingOffUntil := until), h + [Entry(id, row.status, status, at, window)])
  {
  }

  lemma MoveForwardKeepsOrderly(a: Account, id: Id, status: DeletionStatus, at: Time, window: int)
    requires Orderly(a) && id < |a.requests| && a.requests[id].status.Open()
    requires NextState(a.requests[id].status) == Some(status)
        || (a.requests[id].status.Processing? && status.Completed?)
    requires status.Processing? ==> a.requests[id].coolingOffUntil.Some? && a.requests[id].coolingOffUntil.value <= at
    ensures Orderly(Move(a, id, status, if status.CoolingOff? then Some(at + window) else None, at, window))
  {
    ForwardAccounts(a.requests[id], HistoryOf(a.history, id), id, status, at, window);
    MoveKeepsOrderly(a, id, status, if status.CoolingOff? then Some(at + window) else None, at, window);
  }

  lemma AdvanceKeepsOrderly(a: Account, id: Id, window: int, now: Time)
    requires Orderly(a)
    ensures Orderly(AdvanceRequest(a, id, window, now).0)
  {
    if AdvanceRequest(a, id, window, now).1.Moved? {
      var status := AdvanceIsForward(a, id, window, now);
      MoveForwardKeepsOrderly(a, id, status, now, if status.CoolingOff? then window else 0);
    }
  }

  lemma AdvanceIsForward(a: Account, id: Id, window: int, now: Time) returns (status: DeletionStatus)
    requires AdvanceRequest(a, id, window, now).1.Moved?
    ensures id < |a.requests| && NextState(a.requests[id].status) == Some(status)
    ensures status.Processing? ==> a.requests[id].coolingOffUntil.Some? && a.requests[id].coolingOffUntil.value <= now
    ensures AdvanceRequest(a, id, window, now).0
         == if status.CoolingOff? then Move(a, id, status, Some(now + window), now, window)
            else Move(a, id, status, None, now, 0)
  {
    status := NextState(a.requests[id].status).value;
  }

  // A request that is cooling off has the transition into it on record, with the end it was given.
  lemma CoolingOffIsRecorded(a: Account, id: Id)
    requires Orderly(a) && id < |a.requests| && a.requests[id].status.CoolingOff?
    ensures a.requests[id].coolingOffUntil.Some?
    ensures exists e | e in a.history ::
              e.request == id && e.after.CoolingOff? && e.at + e.window == a.requests[id].coolingOffUntil.value
  {
    var h := HistoryOf(a.history, id);
    InHistory(a.history, id, h[1]);
  }

  lemma {:induction false} InHistory(h: seq<Entry>, id: Id, e: Entry)
    requires e in HistoryOf(h, id)
    ensures e in h && e.request == id
  {
    if e in HistoryOf(h[..|h| - 1], id) { InHistory(h[..|h| - 1], id, e); }
  }

  lemma {:induction false} EveryRunIsOrderly(actions: seq<Action>)
    ensures Orderly(Run(actions))
  {
    if actions != [] {
      var n := |actions| - 1;
      EveryRunIsOrderly(actions[..n]);
      StepKeepsOrderly(Run(actions[..n]), actions[n]);
    }
  }

  // Every completed request was requested, verified, cooled off for at least the configured
  // window, processed and executed, in that order and with nothing else in between.
  lemma CompletedWentThroughCoolingOff(actions: seq<Action>, id: Id)
    requires id < |Run(actions).requests| && Run(actions).requests[id].status.Completed?
    ensures var h := HistoryOf(Run(actions).history, id);
            && |h| == 4
            && Goes(h[0], Requested, Verified) && Goes(h[1], Verified, CoolingOff)
            && Goes(h[2], CoolingOff, Processing) && Goes(h[3], Processing, Completed)
            && h[2].at - h[1].at >= h[1].window
  {
    EveryRunIsOrderly(actions);
  }

  // --- Terminal requests never move ----------------------------------------------------------------

  ghost predicate KeepsTerminal(a: Account, a': Account) {
    && |a.requests| <= |a'.requests|
    && a.history <= a'.history
    && (forall i | 0 <= i < |a.requests| ::
          && a'.requests[i].customer == a.requests[i].customer
          && (!a.requests[i].status.Open() ==> a'.requests[i] == a.requests[i]))
  }

  lemma StepKeepsTerminal(a: Account, act: Action)
    ensures KeepsTerminal(a, Apply(a, act))
  {
  }

  lemma {:induction false} TerminalRequestsNeverMove(earlier: seq<Action>, later: seq<Action>)
    ensures KeepsTerminal(Run(earlier), Run(earlier + later))
  {
    if later == [] {
      assert earlier + later == earlier;
    } else {
      var n := |later| - 1;
      assert (earlier + later)[..|earlier + later| - 1] == earlier + later[..n];
      TerminalRequestsNeverMove(earlier, later[..n]);
      StepKeepsTerminal(Run(earlier + later[..n]), later[n]);
      KeepsTerminalTransitive(Run(earlier), Run(earlier + later[..n]), Run(earlier + later));
    }
  }

  lemma KeepsTerminalTransitive(a: Account, b: Account, c: Account)
    requires KeepsTerminal(a, b) && KeepsTerminal(b, c)
    ensures KeepsTerminal(a, c)
  {
  }

  // --- Only execution touches the account --------------------------------------------------------------

  // A customer's profile changes in one kind of step only: executing that customer's processing
  // request with every subscription canceled. The licensing tables then change by a freeze alone.
  lemma OnlyExecutionIsDestructive(a: Account, act: Action, customer: Id)
    requires customer in a.profiles
    ensures customer in Apply(a, act).profiles
    ensures Apply(a, act).profiles[customer] != a.profiles[customer] ==>
              && act.Execute? && act.request < |a.requests|
              && a.requests[act.request].customer == customer && a.requests[act.request].status.Processing?
              && !HasOpenSubscription(a.store.subs, customer)
              && Apply(a, act).profiles[customer].status.ProfileAnonymized?
    ensures !act.Commercial? && Apply(a, act).store != a.store ==>
              && act.Execute? && act.request < |a.requests| && a.requests[act.request].status.Processing?
              && Apply(a, act).store == a.store.(tables := L.Freeze(a.store.tables, a.requests[act.request].customer))
  {
  }

  lemma StepKeepsOneOverride(a: Account, act: Action)
    requires O.OneActivePerKey(a.overrides)
    ensures O.OneActivePerKey(Apply(a, act).overrides)
  {
    match act
    case Except(productKnown, customer, product, key, value, expiresAt) =>
      O.ApplyKeepsOneActive(a.overrides,
                            O.Set(customer in a.profiles, productKnown, customer, product, key, value, expiresAt));
    case Execute(id, now) =>
      if ExecuteDeletion(a, id, now).1.Moved? {
        O.ApplyKeepsOneActive(a.overrides, O.Delete(a.requests[id].customer));
      }
    case _ =>
  }

  // Nothing of the customer's is usable: no personal detail, licence, installation, activation or
  // override is left, and every device is revoked.
  ghost predicate NothingLeft(a: Account, customer: Id) {
    var t := a.store.tables;
    && customer in a.profiles && a.profiles[customer] == Profile(ProfileAnonymized, None, None, None, {})
    && !LR.HoldsActive(t.licenses, customer)
    && (forall i | i in t.installations && i.customer == customer :: !i.active)
    && (forall d | d in t.devices && d.customer == customer :: d.revoked)
    && (forall v | v in t.activations && v.active ::
          && (v.license < |t.licenses| ==> t.licenses[v.license].customer != customer)
          && (v.installation < |t.installations| ==> t.installations[v.installation].customer != customer))
    && (forall o | o in a.overrides && o.customer == customer :: !o.active)
    && !HasOpenSubscription(a.store.subs, customer)
  }

  // Everything of every other customer is as it was.
  ghost predicate OthersUntouched(a: Account, a': Account, customer: Id) {
    var t, t' := a.store.tables, a'.store.tables;
    && a'.profiles - {customer} == a.profiles - {customer}
    && a'.store.subs == a.store.subs && a'.store.links == a.store.links && t'.leases == t.leases
    && |t'.licenses| == |t.licenses| && |t'.devices| == |t.devices| && |t'.installations| == |t.installations|
    && |t'.activations| == |t.activations| && |a'.overrides| == |a.overrides|
    && (forall i | 0 <= i < |t.licenses| && t.licenses[i].customer != customer :: t'.licenses[i] == t.licenses[i])
    && (forall i | 0 <= i < |t.devices| && t.devices[i].customer != customer :: t'.devices[i] == t.devices[i])
    && (forall i | 0 <= i < |t.installations| && t.installations[i].customer != customer ::
          t'.installations[i] == t.installations[i])
    && (forall i | 0 <= i < |t.activations| && t.activations[i].license < |t.licenses|
                   && t.licenses[t.activations[i].license].customer != customer ::
                       t'.activations[i] == t.activations[i])
    && (forall i | 0 <= i < |a.overrides| && a.overrides[i].customer != customer :: a'.overrides[i] == a.overrides[i])
  }

  // An executed deletion leaves the customer nothing usable and touches nobody else.
  lemma ExecutionFreezes(a: Account, id: Id, now: Time)
    requires LR.Sound(a.store.tables)
    requires ExecuteDeletion(a, id, now).1.Moved?
    ensures NothingLeft(ExecuteDeletion(a, id, now).0, a.requests[id].customer)
    ensures OthersUntouched(a, ExecuteDeletion(a, id, now).0, a.requests[id].customer)
  {
    ExecutionLeavesNothing(a, id, now);
    ExecutionTouchesNobodyElse(a, id, now);
  }

  lemma ExecutionLeavesNothing(a: Account, id: Id, now: Time)
    requires LR.Sound(a.store.tables) && ExecuteDeletion(a, id, now).1.Moved?
    ensures NothingLeft(ExecuteDeletion(a, id, now).0, a.requests[id].customer)
  {
    FreezeLeavesNothing(a.store.tables, a.requests[id].customer);
  }

  lemma ExecutionTouchesNobodyElse(a: Account, id: Id, now: Time)
    requires ExecuteDeletion(a, id, now).1.Moved?
    ensures OthersUntouched(a, ExecuteDeletion(a, id, now).0, a.requests[id].customer)
  {
    var a', customer := ExecuteDeletion(a, id, now).0, a.requests[id].customer;
    assert a'.profiles - {customer} == a.profiles - {customer};
  }

  lemma ExecutionMeans(a: Account, id: Id, now: Time)
    requires Orderly(a) && LR.Sound(a.store.tables)
    requires ExecuteDeletion(a, id, now).1.Moved?
    ensures var a' := ExecuteDeletion(a, id, now).0;
            Orderly(a') && NothingLeft(a', a.requests[id].customer) && OthersUntouched(a, a', a.requests[id].customer)
  {
    ExecutionFreezes(a, id, now);
    ExecuteKeepsOrderly(a, id, now);
    OrderlyReads(Move(a, id, Completed, None, now, 0), ExecuteDeletion(a, id, now).0);
  }

  lemma FreezeLeavesNothing(t: L.Tables, customer: Id)
    requires LR.Sound(t)
    ensures var t' := L.Freeze(t, customer);
            && !LR.HoldsActive(t'.licenses, customer)
            && (forall v | v in t'.activations && v.active ::
                  && (v.license < |t'.licenses| ==> t'.licenses[v.license].customer != customer)
                  && (v.installation < |t'.installations| ==> t'.installations[v.installation].customer != customer))
  {
    var t' := L.Freeze(t, customer);
    forall i | 0 <= i < |t'.activations| && t'.activations[i].active
      ensures && t'.licenses[t'.activations[i].license].customer != customer
              && t'.installations[t'.activations[i].installation].customer != customer
    {
      assert t'.activations[i] == t.activations[i] && i !in L.OwnedActive(t, customer);
    }
  }

  // --- Licensing transactions over a run ------------------------------------------------------------

  // The licensing transaction a step carries out, if any.
  function OpOf(a: Account, act: Action): Option<LR.Op> {
    match act
    case Commercial(action) => CR.OpOf(a.store, action)
    case Execute(id, now) =>
      if ExecuteDeletion(a, id, now).1.Moved? then Some(LR.OpFreeze(a.requests[id].customer)) else None
    case _ => None
  }

  lemma StepIsOneOp(a: Account, act: Action)
    ensures Apply(a, act).store.tables == CR.Performed(a.store.tables, OpOf(a, act))
  {
    if act.Commercial? { CR.StepIsOneOp(a.store, act.action); }
  }

  // The licensing transactions of the later part of a run, in order.
  function OpsOf(earlier: seq<Action>, later: seq<Action>): seq<LR.Op> {
    if later == [] then []
    else
      var n := |later| - 1;
      var op := OpOf(Run(earlier + later[..n]), later[n]);
      OpsOf(earlier, later[..n]) + (if op.Some? then [op.value] else [])
  }

  // Between any two points of a run the licensing tables move by those transactions alone.
  lemma {:induction false} TablesTrace(earlier: seq<Action>, later: seq<Action>)
    ensures Run(earlier + later).store.tables == LR.RunOps(Run(earlier).store.tables, OpsOf(earlier, later))
  {
    if later == [] {
      assert earlier + later == earlier;
    } else {
      var n := |later| - 1;
      assert (earlier + later)[..|earlier + later| - 1] == earlier + later[..n];
      TablesTrace(earlier, later[..n]);
      var a, ops := Run(earlier + later[..n]), OpsOf(earlier, later[..n]);
      StepIsOneOp(a, later[n]);
      var op := OpOf(a, later[n]);
      if op.Some? {
        LR.RunOpsAppend(Run(earlier).store.tables, ops, [op.value]);
        CR.OneOp(a.store.tables, op.value);
      } else {
        assert ops + [] == ops;
      }
    }
  }

  lemma EveryRunIsSoundlyLicensed(actions: seq<Action>)
    ensures LR.Sound(Run(actions).store.tables)
  {
    TablesTrace([], actions);
    assert [] + actions == actions;
    LR.EveryRunIsSound(OpsOf([], actions));
  }

  // --- Holding an active licence after deletion -----------------------------------------------------

  // An operator issues the customer a licence, or a webhook or resync syncs a subscription of the
  // customer that grants cloud on a plan version its catalogue has, without a revoked linked licence.
  predicate GrantsAgain(a: Account, act: Action, customer: Id) {
    act.Commercial?
    && match act.action
       case Licensing(op) => op.OpIssue? && op.customer == customer
       case _ =>
         var op := CR.OpOf(a.store, act.action);
         op.Some? && LR.Regrants(a.store.tables, op.value, customer)
  }

  lemma StepGrantsAgain(a: Account, act: Action, customer: Id)
    requires !LR.HoldsActive(a.store.tables.licenses, customer)
    ensures LR.HoldsActive(Apply(a, act).store.tables.licenses, customer) <==> GrantsAgain(a, act, customer)
  {
    StepIsOneOp(a, act);
    var op := OpOf(a, act);
    if op.Some? { LR.StepRegrants(a.store.tables, op.value, customer); }
  }

  // What a regranting webhook or resync leaves stored.
  lemma GrantedByStoredRow(a: Account, act: Action, customer: Id)
    requires GrantsAgain(a, act, customer) && !act.action.Licensing?
    ensures act.action.Process? || act.action.ResyncSub?
    ensures exists sub | sub in Apply(a, act).store.subs ::
              var row := Apply(a, act).store.subs[sub];
              && row.customer == customer && row.status.GrantsCloud() && row.plan in act.action.catalog.plans
              && CR.LinkedStatus(a.store.tables.licenses, customer, sub) != Some(L.LicenseRevoked)
  {
    CR.SyncsStoredRow(a.store, act.action);
    var sub := CR.OpOf(a.store, act.action).value.sub;
    assert sub in Apply(a, act).store.subs;
  }

  // From the start to the end of the later part, at some point.
  predicate EverHolds(earlier: seq<Action>, later: seq<Action>, customer: Id) {
    LR.HoldsActive(Run(earlier + later).store.tables.licenses, customer)
    || (later != [] && EverHolds(earlier, later[..|later| - 1], customer))
  }

  predicate EverGranted(earlier: seq<Action>, later: seq<Action>, customer: Id) {
    later != []
    && var n := |later| - 1;
       EverGranted(earlier, later[..n], customer) || GrantsAgain(Run(earlier + later[..n]), later[n], customer)
  }

  lemma {:induction false} HoldsAgainIffGranted(earlier: seq<Action>, later: seq<Action>, customer: Id)
    requires !LR.HoldsActive(Run(earlier).store.tables.licenses, customer)
    ensures EverHolds(earlier, later, customer) <==> EverGranted(earlier, later, customer)
  {
    if later == [] {
      assert earlier + later == earlier;
    } else {
      var n := |later| - 1;
      HoldsAgainIffGranted(earlier, later[..n], customer);
      if !EverHolds(earlier, later[..n], customer) { HoldsNowIffGranted(earlier, later, customer); }
    }
  }

  lemma HoldsNowIffGranted(earlier: seq<Action>, later: seq<Action>, customer: Id)
    requires later != [] && !EverHolds(earlier, later[..|later| - 1], customer)
    ensures LR.HoldsActive(Run(earlier + later).store.tables.licenses, customer)
            <==> GrantsAgain(Run(earlier + later[..|later| - 1]), later[|later| - 1], customer)
  {
    var n := |later| - 1;
    assert (earlier + later)[..|earlier + later| - 1] == earlier + later[..n];
    NeverHeldNow(earlier, later[..n], customer);
    StepGrantsAgain(Run(earlier + later[..n]), later[n], customer);
  }

  lemma NeverHeldNow(earlier: seq<Action>, later: seq<Action>, customer: Id)
    requires !EverHolds(earlier, later, customer)
    ensures !LR.HoldsActive(Run(earlier + later).store.tables.licenses, customer)
  {
  }

  // Whatever follows an executed deletion, the customer holds an active licence again at some point
  // if and only if one of the steps was such a grant.
  lemma DeletedHoldsAgainIffRegranted(earlier: seq<Action>, id: Id, now: Time, later: seq<Action>)
    requires ExecuteDeletion(Run(earlier), id, now).1.Moved?
    ensures var executed, customer := earlier + [Execute(id, now)], Run(earlier).requests[id].customer;
            EverHolds(executed, later, customer) <==> EverGranted(executed, later, customer)
  {
    NothingHeldAfterExecution(earlier, id, now);
    HoldsAgainIffGranted(earlier + [Execute(id, now)], later, Run(earlier).requests[id].customer);
  }

  lemma NothingHeldAfterExecution(earlier: seq<Action>, id: Id, now: Time)
    requires ExecuteDeletion(Run(earlier), id, now).1.Moved?
    ensures !LR.HoldsActive(Run(earlier + [Execute(id, now)]).store.tables.licenses, Run(earlier).requests[id].customer)
  {
    EveryRunIsSoundlyLicensed(earlier);
    ExecutionFreezes(Run(earlier), id, now);
    ExecutedRun(earlier, id, now);
  }

  lemma ExecutedRun(earlier: seq<Action>, id: Id, now: Time)
    ensures Run(earlier + [Execute(id, now)]) == ExecuteDeletion(Run(earlier), id, now).0
  {
    assert (earlier + [Execute(id, now)])[..|earlier|] == earlier;
  }

  // --- A deletion that is followed by a grant -------------------------------------------------------

  const PROFILE := Profile(ProfileActive, Some("Ada"), None, None, {"ada@example.com"})

  function DeletionAction(n: nat): Action {
    match n
    case 0 => Enroll(0, PROFILE)
    case 1 => Ask(0)
    case 2 => Advance(0, 7, 1)
    case 3 => Advance(0, 7, 2)
    case 4 => Advance(0, 7, 9)
    case _ => Execute(0, 10)
  }

  function DeletionActions(n: nat): seq<Action> {
    if n == 0 then [] else DeletionActions(n - 1) + [DeletionAction(n - 1)]
  }

  function Deleting(n: nat): Account
    requires n <= 6
  {
    var history := [Entry(0, Requested, Verified, 1, 0), Entry(0, Verified, CoolingOff, 2, 7),
                    Entry(0, CoolingOff, Processing, 9, 0), Entry(0, Processing, Completed, 10, 0)];
    var request := Request(0, StatusAfter(history[..if n < 2 then 0 else n - 2]), if n < 4 then None else Some(9));
    Account(if n < 2 then [] else [request], history[..if n < 2 then 0 else n - 2],
            if n == 0 then map[] else map[0 := if n < 6 then PROFILE else Anonymized(PROFILE)], [], C.EMPTY_STORE)
  }

  lemma DeletionStep(n: nat)
    requires n < 6
    ensures Apply(Deleting(n), DeletionAction(n)) == Deleting(n + 1)
    ensures n == 5 ==> ExecuteDeletion(Deleting(n), 0, 10).1.Moved?
  {
  }

  lemma {:induction false} DeletionIsReachable(n: nat)
    requires n <= 6
    ensures Run(DeletionActions(n)) == Deleting(n)
  {
    if n > 0 {
      DeletionIsReachable(n - 1);
      DeletionStep(n - 1);
      assert DeletionActions(n)[..|DeletionActions(n)| - 1] == DeletionActions(n - 1);
    }
  }

  // A subscription event that names the deleted customer on a plan version on sale.
  function NewSubscription(): Action {
    var change := C.Change("sub", None, Some(0), Some(0), None, L.Active, None, None, false);
    Commercial(CR.Process(C.Event("e", Some(11), C.SubscriptionEvent(Some(change))),
                          C.Catalog(map[0 := L.Plan(0, 1)], map[]), 11))
  }

  function NewLicense(): Action {
    Commercial(CR.Licensing(LR.OpIssue(0, 0, 1, None, 11)))
  }

  // The grants happen: a customer is enrolled, deleted after cooling off, and then holds an active
  // licence again because an operator issues one, or because a new subscription is projected.
  lemma DeletedCanHoldAgain()
    ensures ExecuteDeletion(Run(DeletionActions(5)), 0, 10).1.Moved?
    ensures DeletionActions(6) == DeletionActions(5) + [Execute(0, 10)]
    ensures !LR.HoldsActive(Run(DeletionActions(6)).store.tables.licenses, 0)
    ensures LR.HoldsActive(Run(DeletionActions(6) + [NewLicense()]).store.tables.licenses, 0)
    ensures LR.HoldsActive(Run(DeletionActions(6) + [NewSubscription()]).store.tables.licenses, 0)
  {
    DeletionIsReachable(5);
    DeletionIsReachable(6);
    DeletionStep(5);
    var a := Deleting(6);
    assert DeletionActions(6) == DeletionActions(5) + [DeletionAction(5)];
    assert (DeletionActions(6) + [NewLicense()])[..|DeletionActions(6)|] == DeletionActions(6);
    assert (DeletionActions(6) + [NewSubscription()])[..|DeletionActions(6)|] == DeletionActions(6);
    StepGrantsAgain(a, NewLicense(), 0);
    NewSubscriptionGrants(a);
    StepGrantsAgain(a, NewSubscription(), 0);
  }

  lemma NewSubscriptionGrants(a: Account)
    requires a.store == C.EMPTY_STORE
    ensures GrantsAgain(a, NewSubscription(), 0)
  {
  }

  // A deleted customer's licences are never usable again: whatever webhooks, resyncs, operators
  // or registrations follow, each stays revoked and no activation or lease on it is added.
  lemma DeletionIsFinal(earlier: seq<Action>, id: Id, now: Time, later: seq<Action>, license: Id)
    requires ExecuteDeletion(Run(earlier), id, now).1.Moved?
    requires license < |Run(earlier).store.tables.licenses|
    requires Run(earlier).store.tables.licenses[license].customer == Run(earlier).requests[id].customer
    ensures var executed := earlier + [Execute(id, now)];
            var t, t' := Run(executed).store.tables, Run(executed + later).store.tables;
            && LR.RevokedIn(t', license)
            && (forall j | 0 <= j < |t'.activations| && t'.activations[j].license == license ::
                !t'.activations[j].active)
            && (forall j | 0 <= j < |t'.leases| && t'.leases[j].license == license ::
                  j < |t.leases| && t.leases[j] == t'.leases[j])
  {
    var executed := earlier + [Execute(id, now)];
    EveryRunIsSoundlyLicensed(earlier);
    ExecutedRun(earlier, id, now);
    FreezeRevokes(Run(earlier).store.tables, Run(earlier).requests[id].customer, license);
    TablesTrace([], executed);
    assert [] + executed == executed;
    TablesTrace(executed, later);
    var before, after := OpsOf([], executed), OpsOf(executed, later);
    LR.RunOpsAppend(L.EMPTY_TABLES, before, after);
    LR.RevocationIsPermanent(before, after, license);
  }

  lemma FreezeRevokes(t: L.Tables, customer: Id, license: Id)
    requires LR.Sound(t) && license < |t.licenses| && t.licenses[license].customer == customer
    ensures var t' := L.Freeze(t, customer);
            && LR.RevokedIn(t', license)
            && forall j | 0 <= j < |t'.activations| && t'.activations[j].license == license :: !t'.activations[j].active
  {
    FreezeLeavesNothing(t, customer);
  }
}
