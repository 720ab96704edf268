/** Administrative entitlement overrides: the table, its two writers, and what evaluation sees of it. */
module Overrides {
  import opened Wrappers
  import opened Entitlements

  type Id = nat
  type Time = int

  datatype Key = FeatureKey(name: string) | QuotaKey(name: string)

  datatype Override = Override(customer: Id, product: string, row: GrantRow, active: bool, expiresAt: Option<Time>)

  datatype Outcome = Written(id: Option<Id>, cleared: nat) | CustomerNotFound | ProductNotFound

  function RowFor(key: Key, value: FeatureValue): GrantRow {
    GrantRow(if key.FeatureKey? then Some(key.name) else None,
             if key.QuotaKey? then Some(key.name) else None,
             if value.Bool? then Some(value.value) else None,
             if value.Number? then Some(value.number) else None,
             if value.Text? then Some(value.text) else None)
  }

  // Active for the same customer, product and key, a missing key matching a missing key.
  predicate Replaces(o: Override, customer: Id, product: string, key: Key) {
    && o.active && o.customer == customer && o.product == product
    && o.row.featureKey == (if key.FeatureKey? then Some(key.name) else None)
    && o.row.quotaKey == (if key.QuotaKey? then Some(key.name) else None)
  }

  function Cleared(rows: seq<Override>, customer: Id, product: string, key: Key): (cleared: seq<Override>)
    ensures |cleared| == |rows|
  {
    seq(|rows|, i requires 0 <= i < |rows| =>
      if Replaces(rows[i], customer, product, key) then rows[i].(active := false) else rows[i])
  }

  function ReplacedCount(rows: seq<Override>, customer: Id, product: string, key: Key): nat {
    if rows == [] then 0
    else ReplacedCount(rows[..|rows| - 1], customer, product, key)
         + (if Replaces(rows[|rows| - 1], customer, product, key) then 1 else 0)
  }

  function SetOverride(rows: seq<Override>, customerKnown: bool, productKnown: bool, customer: Id, product: string,
                       key: Key, value: Option<FeatureValue>, expiresAt: Option<Time>): (seq<Override>, Outcome) {
    if !customerKnown then (rows, CustomerNotFound)
    else if !productKnown then (rows, ProductNotFound)
    else
      var kept, count := Cleared(rows, customer, product, key), ReplacedCount(rows, customer, product, key);
      if value.None? then (kept, Written(None, count))
      else (kept + [Override(customer, product, RowFor(key, value.value), true, expiresAt)],
            Written(Some(|rows|), count))
  }

  // Account deletion switches off every override of the customer.
  function DropAll(rows: seq<Override>, customer: Id): (dropped: seq<Override>)
    ensures |dropped| == |rows|
  {
    seq(|rows|, i requires 0 <= i < |rows| => if rows[i].customer == customer then rows[i].(active := false)
        else rows[i])
  }

  // --- Runs -----------------------------------------------------------------------------------------

  datatype Action =
    | Set(customerKnown: bool, productKnown: bool, customer: Id, product: string, key: Key,
          value: Option<FeatureValue>, expiresAt: Option<Time>)
    | Delete(customer: Id)

  function Apply(rows: seq<Override>, action: Action): seq<Override> {
    match action
    case Set(customerKnown, productKnown, customer, product, key, value, expiresAt) =>
      SetOverride(rows, customerKnown, productKnown, customer, product, key, value, expiresAt).0
    case Delete(customer) => DropAll(rows, customer)
  }

  function Run(actions: seq<Action>): seq<Override> {
    if actions == [] then [] else Apply(Run(actions[..|actions| - 1]), actions[|actions| - 1])
  }

  predicate SameKey(a: Override, b: Override) {
    a.customer == b.customer && a.product == b.product && a.row.featureKey == b.row.featureKey
        && a.row.quotaKey == b.row.quotaKey
  }

  // At most one active row per customer, product and key, and each row has exactly one key.
  ghost predicate OneActivePerKey(rows: seq<Override>) {
    && (forall i, j | 0 <= i < j < |rows| && rows[i].active && rows[j].active :: !SameKey(rows[i], rows[j]))
    && (forall o | o in rows :: o.row.featureKey.Some? <==> o.row.quotaKey.None?)
  }

  lemma {:induction false} EveryRunHasOneActivePerKey(actions: seq<Action>)
    ensures OneActivePerKey(Run(actions))
  {
    if actions != [] {
      EveryRunHasOneActivePerKey(actions[..|actions| - 1]);
      ApplyKeepsOneActive(Run(actions[..|actions| - 1]), actions[|actions| - 1]);
    }
  }

  lemma ApplyKeepsOneActive(rows: seq<Override>, action: Action)
    requires OneActivePerKey(rows)
    ensures OneActivePerKey(Apply(rows, action))
  {
  }

  // --- The table ------------------------------------------------------------------------------------

  lemma {:induction false} NoneCleared(rows: seq<Override>, customer: Id, product: string, key: Key)
    requires forall i | 0 <= i < |rows| :: !Replaces(rows[i], customer, product, key)
    ensures ReplacedCount(rows, customer, product, key) == 0
  {
    if rows != [] { NoneCleared(rows[..|rows| - 1], customer, product, key); }
  }

  // At most one row is cleared at a time, and one is exactly when the key was overridden.
  lemma {:induction false} ClearsAtMostOne(rows: seq<Override>, customer: Id, product: string, key: Key)
    requires forall i, j | 0 <= i < j < |rows| && rows[i].active && rows[j].active :: !SameKey(rows[i], rows[j])
    ensures ReplacedCount(rows, customer, product, key) <= 1
    ensures ReplacedCount(rows, customer, product, key) == 1 <==>
              exists i :: 0 <= i < |rows| && Replaces(rows[i], customer, product, key)
  {
    if rows != [] {
      var n := |rows| - 1;
      if Replaces(rows[n], customer, product, key) {
        forall i | 0 <= i < n ensures !Replaces(rows[..n][i], customer, product, key) {
          assert rows[i].active ==> !SameKey(rows[i], rows[n]);
        }
        NoneCleared(rows[..n], customer, product, key);
      } else {
        ClearsAtMostOne(rows[..n], customer, product, key);
        forall i | 0 <= i < n ensures rows[..n][i] == rows[i] {}
      }
    }
  }

  class OverrideRepository {
    var rows: seq<Override>

    ghost predicate Valid()
      reads this
    {
      OneActivePerKey(rows)
    }

    constructor ()
      ensures Valid() && rows == []
    {
      rows := [];
    }

    // update ... set active = false where the row is active for this customer, product and key
    method Clear(customer: Id, product: string, key: Key) returns (cleared: nat)
      modifies this
      ensures rows == Cleared(old(rows), customer, product, key)
      ensures cleared == ReplacedCount(old(rows), customer, product, key)
    {
      ghost var before := rows;
      cleared := 0;
      for i := 0 to |rows|
        invariant |rows| == |before|
        invariant forall j | 0 <= j < i :: rows[j] == Cleared(before, customer, product, key)[j]
        invariant forall j | i <= j < |rows| :: rows[j] == before[j]
        invariant cleared == ReplacedCount(before[..i], customer, product, key)
      {
        assert before[..i + 1][..i] == before[..i];
        if Replaces(rows[i], customer, product, key) {
          rows := rows[i := rows[i].(active := false)];
          cleared := cleared + 1;
        }
      }
      assert before[..|before|] == before;
    }

    // After a set the new row is the key's only override; after a clear it has none.
    method Set(customerKnown: bool, productKnown: bool, customer: Id, product: string, key: Key,
               value: Option<FeatureValue>, expiresAt: Option<Time>)
      returns (outcome: Outcome)
      requires Valid()
      modifies this
      ensures Valid()
      ensures (rows, outcome) == SetOverride(old(rows), customerKnown, productKnown, customer, product, key, value,
                                             expiresAt)
      ensures outcome.Written? ==>
                && outcome.cleared <= 1
                && (outcome.cleared == 1 <==>
                      exists i :: 0 <= i < |old(rows)| && Replaces(old(rows)[i], customer, product, key))
                && (outcome.id.Some? <==> value.Some?)
                && forall i: Id | i < |rows| :: Replaces(rows[i], customer, product, key) <==> outcome.id == Some(i)
    {
      ApplyKeepsOneActive(rows, Action.Set(customerKnown, productKnown, customer, product, key, value, expiresAt));
      ClearsAtMostOne(rows, customer, product, key);
      if !customerKnown {
        return CustomerNotFound;
      }
      if !productKnown {
        return ProductNotFound;
      }
      var cleared := Clear(customer, product, key);
      if value.Some? {
        outcome := Written(Some(|rows|), cleared);
        rows := rows + [Override(customer, product, RowFor(key, value.value), true, expiresAt)];
      } else {
        outcome := Written(None, cleared);
      }
    }

    // update ... set active = false where customer_id is the customer's
    method Drop(customer: Id)
      requires Valid()
      modifies this
      ensures Valid() && rows == DropAll(old(rows), customer)
    {
      ApplyKeepsOneActive(rows, Delete(customer));
      for i := 0 to |rows|
        invariant |rows| == |old(rows)|
        invariant forall j | 0 <= j < i :: rows[j] == DropAll(old(rows), customer)[j]
        invariant forall j | i <= j < |rows| :: rows[j] == old(rows)[j]
      {
        if rows[i].customer == customer {
          rows := rows[i := rows[i].(active := false)];
        }
      }
    }
  }

  // --- What evaluation sees -------------------------------------------------------------------------

  predicate Counts(o: Override, customer: Id, product: string, now: Time) {
    o.customer == customer && o.product == product && o.active && (o.expiresAt.None? || o.expiresAt.value > now)
  }

  // The override rows the assembly reads, oldest first.
  function Live(rows: seq<Override>, customer: Id, product: string, now: Time): seq<GrantRow> {
    if rows == [] then []
    else
      var row := rows[|rows| - 1];
      Live(rows[..|rows| - 1], customer, product, now) + (if Counts(row, customer, product, now) then [row.row] else [])
  }

  lemma {:induction false} LiveMeans(rows: seq<Override>, customer: Id, product: string, now: Time)
    ensures forall g | g in Live(rows, customer, product, now) ::
              exists i: nat :: i < |rows| && rows[i].row == g && Counts(rows[i], customer, product, now)
    ensures forall i: nat | i < |rows| && Counts(rows[i], customer, product, now) ::
              rows[i].row in Live(rows, customer, product, now)
  {
    if rows != [] {
      var n := |rows| - 1;
      LiveMeans(rows[..n], customer, product, now);
      assert forall i: nat | i < n :: rows[..n][i] == rows[i];
    }
  }

  lemma {:induction false} LastFeatureMeans(rows: seq<GrantRow>, key: string)
    ensures LastFeature(rows, key).Some? <==> exists g | g in rows :: GivesFeature(g, key)
    ensures LastFeature(rows, key).Some? ==>
              exists g | g in rows :: GivesFeature(g, key) && ValueOf(g) == LastFeature(rows, key)
  {
    if rows != [] {
      LastFeatureMeans(rows[..|rows| - 1], key);
      assert rows == rows[..|rows| - 1] + [rows[|rows| - 1]];
    }
  }

  // Evaluation sees exactly one winner: a feature has a value in the override layer exactly when an
  // active unexpired row gives it that value, so no row hides another.
  lemma NoOverrideIsHidden(rows: seq<Override>, customer: Id, product: string, now: Time, key: string,
                           value: FeatureValue)
    requires OneActivePerKey(rows)
    ensures Get(MergedFeatures(Live(rows, customer, product, now), map[]), key) == Some(value) <==>
              exists o | o in rows :: Counts(o, customer, product, now) && GivesFeature(o.row, key)
                  && ValueOf(o.row) == Some(value)
  {
    var live := Live(rows, customer, product, now);
    LastGrantWins(live, map[], map[], key);
    LiveMeans(rows, customer, product, now);
    LastFeatureMeans(live, key);
    forall i: nat, j: nat | i < |rows| && j < |rows| && Counts(rows[i], customer, product, now)
        && Counts(rows[j], customer, product, now)
                && GivesFeature(rows[i].row, key) && GivesFeature(rows[j].row, key)
      ensures i == j
    {
      assert rows[i] in rows && rows[j] in rows && SameKey(rows[i], rows[j]);
    }
  }

  // Setting a feature decides it: the override layer holds the new value, or nothing once cleared or
  // when it has already expired, and no other customer, product or feature is touched.
  lemma SetDecidesFeature(rows: seq<Override>, customer: Id, product: string, name: string, value: Option<FeatureValue>,
                          expiresAt: Option<Time>, now: Time)
    requires OneActivePerKey(rows)
    ensures var rows' := SetOverride(rows, true, true, customer, product, FeatureKey(name), value, expiresAt).0;
            Get(MergedFeatures(Live(rows', customer, product, now), map[]), name) ==
            if value.Some? && (expiresAt.None? || expiresAt.value > now) then value else None
  {
    var key := FeatureKey(name);
    var rows' := SetOverride(rows, true, true, customer, product, key, value, expiresAt).0;
    var live := Live(rows', customer, product, now);
    ApplyKeepsOneActive(rows, Set(true, true, customer, product, key, value, expiresAt));
    LiveMeans(rows', customer, product, now);
    LastFeatureMeans(live, name);
    LastGrantWins(live, map[], map[], name);
    forall i: nat | i < |rows| ensures !(Counts(rows'[i], customer, product, now) && GivesFeature(rows'[i].row, name)) {
      assert rows[i] in rows;
    }
    if value.Some? {
      assert ValueOf(RowFor(key, value.value)) == value;
    }
  }

  lemma {:induction false} NoQuotaGiven(rows: seq<GrantRow>, name: string)
    requires forall g | g in rows :: !GivesQuota(g, name)
    ensures LastQuota(rows, name) == None
  {
    if rows != [] {
      assert rows[|rows| - 1] in rows;
      NoQuotaGiven(rows[..|rows| - 1], name);
    }
  }

  // So does setting a quota: a number stands until it expires; once cleared, expired, or set to
  // anything but a number, the quota is what it was without overrides.
  lemma SetDecidesQuota(rows: seq<Override>, customer: Id, product: string, name: string, value: Option<FeatureValue>,
                        expiresAt: Option<Time>, now: Time, terms: map<string, real>)
    requires OneActivePerKey(rows)
    ensures var rows' := SetOverride(rows, true, true, customer, product, QuotaKey(name), value, expiresAt).0;
            Get(MergedQuotas(Live(rows', customer, product, now), terms), name) ==
            if value.Some? && value.value.Number? && (expiresAt.None? || expiresAt.value > now)
            then Some(value.value.number) else Get(terms, name)
  {
    var key := QuotaKey(name);
    var kept := Cleared(rows, customer, product, key);
    var before := Live(kept, customer, product, now);
    ApplyKeepsOneActive(rows, Set(true, true, customer, product, key, None, expiresAt));
    LiveMeans(kept, customer, product, now);
    forall i: nat | i < |rows| ensures !(Counts(kept[i], customer, product, now) && GivesQuota(kept[i].row, name)) {
      assert rows[i] in rows;
    }
    NoQuotaGiven(before, name);
    LastGrantWins(before, map[], terms, name);
    if value.Some? {
      var row := Override(customer, product, RowFor(key, value.value), true, expiresAt);
      assert (kept + [row])[..|kept|] == kept;
      if Counts(row, customer, product, now) {
        assert (before + [row.row])[..|before|] == before;
      } else {
        assert before + [] == before;
      }
    }
  }

  // Refused exactly for an unknown customer, or else an unknown product, and then nothing changes.
  lemma SetRefuses(rows: seq<Override>, customerKnown: bool, productKnown: bool, customer: Id, product: string,
                   key: Key, value: Option<FeatureValue>, expiresAt: Option<Time>)
    ensures var (rows', outcome) := SetOverride(rows, customerKnown, productKnown, customer, product, key, value,
                                                expiresAt);
            && (outcome.CustomerNotFound? <==> !customerKnown)
            && (outcome.ProductNotFound? <==> customerKnown && !productKnown)
            && (!outcome.Written? ==> rows' == rows)
  {
  }

  lemma SetTouchesNothingElse(rows: seq<Override>, customer: Id, product: string, key: Key, value: Option<FeatureValue>,
                              expiresAt: Option<Time>, other: Override)
    requires !Replaces(other, customer, product, key)
    requires value.Some? ==> other != Override(customer, product, RowFor(key, value.value), true, expiresAt)
    requires other.active
    ensures other in SetOverride(rows, true, true, customer, product, key, value, expiresAt).0 <==> other in rows
  {
    var rows' := SetOverride(rows, true, true, customer, product, key, value, expiresAt).0;
    if other in rows {
      var i: nat :| i < |rows| && rows[i] == other;
      assert rows'[i] == other;
    }
    if other in rows' {
      var i: nat :| i < |rows'| && rows'[i] == other;
      assert i < |rows| && rows[i] == other;
    }
  }

  // The way through: an override set on a feature is what evaluation answers, unless it is a cloud
  // feature behind a shut gate.
  lemma OverrideReachesEvaluation(s: Sources, rows: seq<Override>, customer: Id, name: string, value: FeatureValue,
                                  expiresAt: Option<Time>, now: Time)
    requires OneActivePerKey(rows)
    requires expiresAt.Some? ==> expiresAt.value > now
    requires s.overrides == Live(SetOverride(rows, true, true, customer, s.product, FeatureKey(name), Some(value),
                                             expiresAt).0,
                                 customer, s.product, now)
    ensures var features := Evaluated(Loaded(s)).features;
            && name in features
            && features[name] == if IsCloudFeature(name) && Gated(Loaded(s)) then Bool(false) else value
  {
    SetDecidesFeature(rows, customer, s.product, name, Some(value), expiresAt, now);
    assert Decides(Layers(Loaded(s)), name, 4);
    HighestLayerWins(Loaded(s), name);
  }

  // After account deletion no override of the customer is left to evaluate.
  lemma {:induction false} DeletionDropsOverrides(rows: seq<Override>, customer: Id, product: string, now: Time)
    ensures Live(DropAll(rows, customer), customer, product, now) == []
  {
    if rows != [] {
      var n := |rows| - 1;
      DeletionDropsOverrides(rows[..n], customer, product, now);
      assert DropAll(rows, customer)[..n] == DropAll(rows[..n], customer);
    }
  }
}
