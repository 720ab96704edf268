/** Quota rules: pure decisions over amounts, limits and ledgers. Amounts are exact reals. */
module UsageRules {
  import opened Wrappers

  datatype Decision = Allow | Deny

  datatype Reason = NegativeRequest | UnlimitedMeter | WithinQuota | ExceedsRemaining

  datatype Remaining = Finite(amount: real) | Infinite

  datatype QuotaDecision = QuotaDecision(decision: Decision, reason: Reason, remainingBefore: Remaining)

  /** A request fits when it is not negative and lands at or under the limit, if there is one. */
  function Decide(requested: real, used: real, reserved: real, limit: Option<real>): (d: QuotaDecision)
    ensures d.decision.Allow? <==>
              requested >= 0.0 && (limit.Some? ==> used + reserved + requested <= limit.value)
  {
    if requested < 0.0 then
      QuotaDecision(Deny, NegativeRequest, Finite(0.0))
    else
      match limit
      case None => QuotaDecision(Allow, UnlimitedMeter, Infinite)
      case Some(cap) =>
        var remaining := cap - used - reserved;
        if requested <= remaining then QuotaDecision(Allow, WithinQuota, Finite(remaining))
        else QuotaDecision(Deny, ExceedsRemaining, Finite(remaining))
  }

  /** The reason names the case, and what is reported as remaining is the most that would be granted. */
  lemma DecisionMeans(requested: real, used: real, reserved: real, limit: Option<real>, other: real)
    requires other >= 0.0
    ensures var d := Decide(requested, used, reserved, limit);
            && (d.reason.NegativeRequest? <==> requested < 0.0)
            && (d.reason.UnlimitedMeter? <==> requested >= 0.0 && limit.None?)
            && (d.reason.WithinQuota? <==> limit.Some? && d.decision.Allow?)
            && (d.reason.ExceedsRemaining? <==> requested >= 0.0 && d.decision.Deny?)
            && (requested < 0.0 ==> d.remainingBefore == Finite(0.0))
            && (requested >= 0.0 ==>
                  (Decide(other, used, reserved, limit).decision.Allow?
                   <==> d.remainingBefore.Infinite? || other <= d.remainingBefore.amount))
  {
  }

  /** The sum of a ledger's signed amounts. */
  function RebuildTotal(amounts: seq<real>): real {
    if amounts == [] then 0.0
    else RebuildTotal(amounts[..|amounts| - 1]) + amounts[|amounts| - 1]
  }

  lemma RebuildTotalAppend(amounts: seq<real>, x: real)
    ensures RebuildTotal(amounts + [x]) == RebuildTotal(amounts) + x
  {
    assert (amounts + [x])[..|amounts|] == amounts;
  }

  /** The usage at which a percentage of the limit is reached. */
  function Mark(limit: real, percent: nat): real {
    limit * (percent as real) / 100.0
  }

  lemma MarkIsPositive(limit: real, percent: nat)
    requires limit > 0.0
    ensures Mark(limit, percent) > 0.0 <==> percent > 0
  {
    if percent > 0 {
      assert limit * (percent as real) > 0.0;
    }
  }

  predicate Crosses(before: real, after: real, limit: real, percent: nat) {
    before < Mark(limit, percent) <= after
  }

  /** The configured percentages whose mark lies above `before` and at or under `after`. */
  function CrossedThresholds(before: real, after: real, limit: Option<real>, percents: seq<nat>): (crossed: seq<nat>)
    ensures forall p :: p in crossed <==>
              p in percents && limit.Some? && limit.value > 0.0 && Crosses(before, after, limit.value, p)
  {
    if limit.None? || limit.value <= 0.0 || percents == [] then []
    else
      var rest := CrossedThresholds(before, after, limit, percents[1..]);
      if Crosses(before, after, limit.value, percents[0]) then [percents[0]] + rest else rest
  }
}
