/** Entitlement evaluation: five layers of feature values, the cloud gate, and how the layers are filled. */
module Entitlements {
  import opened Wrappers
  import L = LicenseTables

  datatype FeatureValue = Bool(value: bool) | Number(number: real) | Text(text: string)

  type Layer = map<string, FeatureValue>

  datatype Inputs = Inputs(productDefaults: Layer, planVersion: Layer, licenseGrants: Layer, promotionalGrants: Layer,
                           adminOverrides: Layer, quotaLimits: map<string, real>,
                           subscriptionGrantsCloud: bool, suspended: bool, revoked: bool)

  datatype Result = Result(features: Layer, quotas: map<string, real>)

  predicate EndsWith(s: string, suffix: string) {
    |suffix| <= |s| && s[|s| - |suffix|..] == suffix
  }

  predicate IsCloudFeature(key: string) {
    EndsWith(key, ".cloud.enabled") || EndsWith(key, ".deep_analysis.enabled") || EndsWith(key, ".premium.enabled")
  }

  // The gated keys, whatever comes before their ending.
  lemma CloudKeys(key: string, prefix: string)
    ensures IsCloudFeature(prefix + ".cloud.enabled") && IsCloudFeature(prefix + ".premium.enabled")
            && IsCloudFeature(prefix + ".deep_analysis.enabled")
    ensures IsCloudFeature(key) ==>
              exists start :: key == start + ".cloud.enabled" || key == start + ".deep_analysis.enabled"
                              || key == start + ".premium.enabled"
  {
    assert (prefix + ".cloud.enabled")[|prefix|..] == ".cloud.enabled";
    assert (prefix + ".deep_analysis.enabled")[|prefix|..] == ".deep_analysis.enabled";
    assert (prefix + ".premium.enabled")[|prefix|..] == ".premium.enabled";
    if EndsWith(key, ".cloud.enabled") { assert key == key[..|key| - 14] + ".cloud.enabled"; }
    if EndsWith(key, ".deep_analysis.enabled") { assert key == key[..|key| - 22] + ".deep_analysis.enabled"; }
    if EndsWith(key, ".premium.enabled") { assert key == key[..|key| - 16] + ".premium.enabled"; }
  }

  // --- Evaluation -----------------------------------------------------------------------------------

  // The layers, lowest precedence first.
  function Layers(inputs: Inputs): seq<Layer> {
    [inputs.productDefaults, inputs.planVersion, inputs.licenseGrants, inputs.promotionalGrants, inputs.adminOverrides]
  }

  predicate Gated(inputs: Inputs) {
    !inputs.subscriptionGrantsCloud || inputs.suspended || inputs.revoked
  }

  function Overlay(layers: seq<Layer>): Layer {
    if layers == [] then map[] else Overlay(layers[..|layers| - 1]) + layers[|layers| - 1]
  }

  function WithoutCloud(features: Layer): Layer {
    map key | key in features :: if IsCloudFeature(key) then Bool(false) else features[key]
  }

  function Evaluated(inputs: Inputs): Result {
    var features := Overlay(Layers(inputs));
    Result(if Gated(inputs) then WithoutCloud(features) else features, inputs.quotaLimits)
  }

  method DenyCloud(features: Layer) returns (denied: Layer)
    ensures denied == WithoutCloud(features)
  {
    denied := features;
    var keys := features.Keys;
    while keys != {}
      invariant keys <= features.Keys == denied.Keys
      invariant forall key | key in features ::
                  denied[key] == if key !in keys && IsCloudFeature(key) then Bool(false) else features[key]
    {
      var key :| key in keys;
      keys := keys - {key};
      if IsCloudFeature(key) {
        denied := denied[key := Bool(false)];
      }
    }
  }

  // The inner loop: every entry of the layer overwrites what was there.
  method Insert(features: Layer, layer: Layer) returns (laid: Layer)
    ensures laid == features + layer
  {
    laid := features;
    var keys := layer.Keys;
    while keys != {}
      invariant keys <= layer.Keys
      invariant laid.Keys == features.Keys + (layer.Keys - keys)
      invariant forall key | key in laid :: laid[key] == if key in layer && key !in keys then layer[key]
          else features[key]
    {
      var key :| key in keys;
      keys := keys - {key};
      laid := laid[key := layer[key]];
    }
  }

  method Evaluate(inputs: Inputs) returns (result: Result)
    ensures result == Evaluated(inputs)
  {
    var features: Layer := map[];
    var layers := Layers(inputs);
    for i := 0 to |layers|
      invariant features == Overlay(layers[..i])
    {
      var layer := layers[i];
      features := Insert(features, layer);
      assert layers[..i + 1][..i] == layers[..i];
    }
    assert layers[..|layers|] == layers;
    if !inputs.subscriptionGrantsCloud {
      features := DenyCloud(features);
    }
    if inputs.suspended || inputs.revoked {
      features := DenyCloud(features);
    }
    result := Result(features, inputs.quotaLimits);
  }

  // Layer `i` is the last that defines the key.
  ghost predicate Decides(layers: seq<Layer>, key: string, i: nat) {
    i < |layers| && key in layers[i] && forall j | i < j < |layers| :: key !in layers[j]
  }

  lemma {:induction false} OverlayMeans(layers: seq<Layer>, key: string)
    ensures key in Overlay(layers) <==> exists i :: 0 <= i < |layers| && key in layers[i]
    ensures forall i: nat | Decides(layers, key, i) :: key in Overlay(layers) && Overlay(layers)[key] == layers[i][key]
  {
    if layers != [] {
      var n := |layers| - 1;
      OverlayMeans(layers[..n], key);
      if key !in layers[n] {
        forall i: nat | Decides(layers, key, i) ensures Decides(layers[..n], key, i) {}
      }
    }
  }

  // The highest layer that defines a key wins, over exactly the union of the keys; a cloud key is
  // false whenever unsubscribed, suspended or revoked.
  lemma HighestLayerWins(inputs: Inputs, key: string)
    ensures var features := Evaluated(inputs).features;
            && (key in features <==> exists layer | layer in Layers(inputs) :: key in layer)
            && forall i: nat | Decides(Layers(inputs), key, i) ::
                 && key in features
                 && features[key] == if IsCloudFeature(key) && Gated(inputs) then Bool(false)
                     else Layers(inputs)[i][key]
  {
    OverlayMeans(Layers(inputs), key);
    if exists i :: 0 <= i < 5 && key in Layers(inputs)[i] {
      var i :| 0 <= i < 5 && key in Layers(inputs)[i];
      assert Layers(inputs)[i] in Layers(inputs);
    }
  }

  // The same layers under gates at least as tight.
  predicate Tighter(loose: Inputs, tight: Inputs) {
    && Layers(loose) == Layers(tight)
    && (tight.subscriptionGrantsCloud ==> loose.subscriptionGrantsCloud)
    && (loose.suspended ==> tight.suspended) && (loose.revoked ==> tight.revoked)
  }

  // Losing the subscription, a suspension or a revocation never grants anything, takes away cloud
  // keys only, and leaves every other key as it was.
  lemma TighteningNeverGrants(loose: Inputs, tight: Inputs, key: string)
    requires Tighter(loose, tight)
    ensures var before, after := Evaluated(loose).features, Evaluated(tight).features;
            && after.Keys == before.Keys
            && (key in after ==> after[key] == before[key] || (IsCloudFeature(key) && after[key] == Bool(false)))
            && (key in after && !IsCloudFeature(key) ==> after[key] == before[key])
  {
    assert Overlay(Layers(loose)) == Overlay(Layers(tight));
  }

  // --- Grant rows -----------------------------------------------------------------------------------

  datatype GrantRow = GrantRow(featureKey: Option<string>, quotaKey: Option<string>,
                               boolValue: Option<bool>, numberValue: Option<real>, stringValue: Option<string>)

  function ValueOf(row: GrantRow): Option<FeatureValue> {
    if row.boolValue.Some? then Some(Bool(row.boolValue.value))
    else if row.numberValue.Some? then Some(Number(row.numberValue.value))
    else if row.stringValue.Some? then Some(Text(row.stringValue.value))
    else None
  }

  // A row's switch counts before its number, and that before its text.
  lemma RowValue(row: GrantRow, value: FeatureValue)
    ensures ValueOf(row) == Some(value) <==>
              match value
              case Bool(b) => row.boolValue == Some(b)
              case Number(n) => row.boolValue == None && row.numberValue == Some(n)
              case Text(t) => row.boolValue == None && row.numberValue == None && row.stringValue == Some(t)
  {
  }

  predicate GivesFeature(row: GrantRow, key: string) {
    row.featureKey == Some(key) && ValueOf(row).Some?
  }

  predicate GivesQuota(row: GrantRow, key: string) {
    row.featureKey.None? && row.quotaKey == Some(key) && row.numberValue.Some?
  }

  method MergeGrants(rows: seq<GrantRow>, features: Layer, quotas: map<string, real>)
    returns (merged: Layer, limits: map<string, real>)
    ensures merged == MergedFeatures(rows, features) && limits == MergedQuotas(rows, quotas)
  {
    merged, limits := features, quotas;
    for i := 0 to |rows|
      invariant merged == MergedFeatures(rows[..i], features) && limits == MergedQuotas(rows[..i], quotas)
    {
      var row := rows[i];
      assert rows[..i + 1][..i] == rows[..i];
      if row.featureKey.Some? {
        var value := ValueOf(row);
        if value.Some? {
          merged := merged[row.featureKey.value := value.value];
        }
      } else if row.quotaKey.Some? {
        if row.numberValue.Some? {
          limits := limits[row.quotaKey.value := row.numberValue.value];
        }
      }
    }
    assert rows[..|rows|] == rows;
  }

  function MergedFeatures(rows: seq<GrantRow>, features: Layer): Layer {
    if rows == [] then features
    else
      var before, row := MergedFeatures(rows[..|rows| - 1], features), rows[|rows| - 1];
      if row.featureKey.Some? && ValueOf(row).Some? then before[row.featureKey.value := ValueOf(row).value] else before
  }

  function MergedQuotas(rows: seq<GrantRow>, quotas: map<string, real>): map<string, real> {
    if rows == [] then quotas
    else
      var before, row := MergedQuotas(rows[..|rows| - 1], quotas), rows[|rows| - 1];
      if row.featureKey.None? && row.quotaKey.Some? && row.numberValue.Some?
      then before[row.quotaKey.value := row.numberValue.value] else before
  }

  function Get<V>(m: map<string, V>, key: string): Option<V> {
    if key in m then Some(m[key]) else None
  }

  // The value of the last row that gives the feature.
  function LastFeature(rows: seq<GrantRow>, key: string): Option<FeatureValue> {
    if rows == [] then None
    else if GivesFeature(rows[|rows| - 1], key) then ValueOf(rows[|rows| - 1])
    else LastFeature(rows[..|rows| - 1], key)
  }

  function LastQuota(rows: seq<GrantRow>, key: string): Option<real> {
    if rows == [] then None
    else if GivesQuota(rows[|rows| - 1], key) then rows[|rows| - 1].numberValue
    else LastQuota(rows[..|rows| - 1], key)
  }

  // The last row that gives a key wins; a key no row gives keeps what it had.
  lemma {:induction false} LastGrantWins(rows: seq<GrantRow>, features: Layer, quotas: map<string, real>, key: string)
    ensures Get(MergedFeatures(rows, features), key)
         == if LastFeature(rows, key).Some? then LastFeature(rows, key) else Get(features, key)
    ensures Get(MergedQuotas(rows, quotas), key)
         == if LastQuota(rows, key).Some? then LastQuota(rows, key) else Get(quotas, key)
  {
    if rows != [] { LastGrantWins(rows[..|rows| - 1], features, quotas, key); }
  }

  // --- Filling the layers ---------------------------------------------------------------------------

  datatype PlanTerms = PlanTerms(key: string, features: Layer, quotas: map<string, real>)

  datatype Limits = Limits(cloudTokens: nat, deepAnalysisRuns: nat, premiumRequests: nat, deviceLimit: nat)

  datatype Policy = Policy(included: Limits, pro: Limits)

  datatype HeldSubscription = HeldSubscription(status: L.SubscriptionStatus, eventAt: Option<int>, plan: PlanTerms)

  datatype HeldLicense = HeldLicense(status: L.LicenseStatus, issuedAt: int)

  // The rows the assembly reads for one customer and product.
  datatype Sources = Sources(product: string, included: Option<PlanTerms>, policy: Option<Policy>,
                             subscriptions: seq<HeldSubscription>, licenses: seq<HeldLicense>,
                             licenseGrants: seq<GrantRow>, promotions: seq<GrantRow>, overrides: seq<GrantRow>)

  function PolicyFeatures(limits: Limits): Layer {
    map["authorforge.cloud.enabled" := Bool(limits.cloudTokens > 0),
        "authorforge.deep_analysis.enabled" := Bool(limits.deepAnalysisRuns > 0),
        "authorforge.premium.enabled" := Bool(limits.premiumRequests > 0),
        "authorforge.devices.max" := Number(limits.deviceLimit as real)]
  }

  function PolicyQuotas(limits: Limits): map<string, real> {
    map["cloud_tokens.monthly" := limits.cloudTokens as real,
        "deep_analysis_runs.monthly" := limits.deepAnalysisRuns as real,
        "premium_model_requests.monthly" := limits.premiumRequests as real]
  }

  function LimitsForPlan(policy: Option<Policy>, planKey: string): Option<Limits> {
    if policy.None? then None
    else if planKey == "authorforge_included" then Some(policy.value.included)
    else if planKey == "authorforge_pro" then Some(policy.value.pro)
    else None
  }

  // A plan's own terms with the commercial policy laid over them.
  function PlanLayer(plan: PlanTerms, limits: Option<Limits>): Layer {
    if limits.Some? then plan.features + PolicyFeatures(limits.value) else plan.features
  }

  function PlanQuotas(plan: PlanTerms, limits: Option<Limits>): map<string, real> {
    if limits.Some? then plan.quotas + PolicyQuotas(limits.value) else plan.quotas
  }

  // The order of the current-subscription query; a later row was created later.
  predicate RanksAtLeast(a: HeldSubscription, b: HeldSubscription) {
    if a.status.GrantsCloud() != b.status.GrantsCloud() then a.status.GrantsCloud()
    else if b.eventAt.None? then true
    else a.eventAt.Some? && a.eventAt.value >= b.eventAt.value
  }

  function CurrentSubscription(rows: seq<HeldSubscription>): Option<HeldSubscription> {
    if rows == [] then None
    else
      var best, row := CurrentSubscription(rows[..|rows| - 1]), rows[|rows| - 1];
      if row.status.Canceled? || (best.Some? && !RanksAtLeast(row, best.value)) then best else Some(row)
  }

  predicate Precedes(a: HeldLicense, b: HeldLicense) {
    if a.status.LicenseActive? != b.status.LicenseActive? then a.status.LicenseActive? else a.issuedAt >= b.issuedAt
  }

  function EffectiveLicense(rows: seq<HeldLicense>): Option<HeldLicense> {
    if rows == [] then None
    else
      var best, row := EffectiveLicense(rows[..|rows| - 1]), rows[|rows| - 1];
      if best.Some? && !Precedes(row, best.value) then best else Some(row)
  }

  // The included plan's quotas, with the current plan's laid over them.
  function QuotaTerms(included: Option<PlanTerms>, baseline: Option<Limits>, current: Option<PlanTerms>,
                      limits: Option<Limits>): map<string, real> {
    var terms := if included.Some? then PlanQuotas(included.value, baseline) else map[];
    if current.Some? then terms + PlanQuotas(current.value, limits) else terms
  }

  function PolicyInForce(s: Sources): Option<Policy> {
    if s.product == "authorforge" then s.policy else None
  }

  function Baseline(s: Sources): Option<Limits> {
    var policy := PolicyInForce(s);
    if policy.Some? then Some(policy.value.included) else None
  }

  function CurrentPlan(s: Sources): Option<PlanTerms> {
    var current := CurrentSubscription(s.subscriptions);
    if current.Some? then Some(current.value.plan) else None
  }

  function PlanLimits(s: Sources): Option<Limits> {
    var plan := CurrentPlan(s);
    if plan.Some? then LimitsForPlan(PolicyInForce(s), plan.value.key) else None
  }

  function Loaded(s: Sources): Inputs {
    var sub, plan, license := CurrentSubscription(s.subscriptions), CurrentPlan(s), EffectiveLicense(s.licenses);
    var terms := QuotaTerms(s.included, Baseline(s), plan, PlanLimits(s));
    Inputs(if s.included.Some? then PlanLayer(s.included.value, Baseline(s)) else map[],
           if plan.Some? then PlanLayer(plan.value, PlanLimits(s)) else map[],
           MergedFeatures(s.licenseGrants, map[]), MergedFeatures(s.promotions, map[]),
           MergedFeatures(s.overrides, map[]), MergedQuotas(s.overrides, MergedQuotas(s.promotions, terms)),
           sub.Some? && sub.value.status.GrantsCloud(), false,
           license.Some? && license.value.status.LicenseRevoked?)
  }

  // A cloud-granting subscription is never hidden behind another one.
  lemma {:induction false} CurrentSubscriptionMeans(rows: seq<HeldSubscription>)
    ensures var best := CurrentSubscription(rows);
            && (best.None? <==> forall r | r in rows :: r.status.Canceled?)
            && (best.Some? ==> best.value in rows && !best.value.status.Canceled?)
            && (best.Some? ==> forall r | r in rows && !r.status.Canceled? :: RanksAtLeast(best.value, r))
            && ((best.Some? && best.value.status.GrantsCloud()) <==> exists r | r in rows :: r.status.GrantsCloud())
  {
    if rows != [] {
      var n := |rows| - 1;
      CurrentSubscriptionMeans(rows[..n]);
      assert rows == rows[..n] + [rows[n]];
    }
  }

  // Row `i` is current: it is not canceled, and of the rows that grant cloud as it does none has a
  // later event, nor an equal one and a later place; one without an event comes after all that have one.
  ghost predicate Current(rows: seq<HeldSubscription>, i: nat) {
    && i < |rows| && !rows[i].status.Canceled?
    && forall j | 0 <= j < |rows| && !rows[j].status.Canceled? ::
         if rows[j].status.GrantsCloud() != rows[i].status.GrantsCloud() then rows[i].status.GrantsCloud()
         else if rows[j].eventAt == rows[i].eventAt then j <= i
         else rows[i].eventAt.Some? && (rows[j].eventAt.Some? ==> rows[j].eventAt.value < rows[i].eventAt.value)
  }

  lemma {:induction false} CurrentIsNewest(rows: seq<HeldSubscription>) returns (i: nat)
    requires CurrentSubscription(rows).Some?
    ensures Current(rows, i) && CurrentSubscription(rows) == Some(rows[i])
  {
    var n := |rows| - 1;
    if CurrentSubscription(rows[..n]).None? {
      CurrentSubscriptionMeans(rows[..n]);
      assert forall j | 0 <= j < n :: rows[j] in rows[..n];
      i := n;
    } else {
      i := CurrentIsNewest(rows[..n]);
      assert rows[..n][i] == rows[i];
      assert forall j | 0 <= j < n :: rows[..n][j] == rows[j];
      if !rows[n].status.Canceled? && RanksAtLeast(rows[n], rows[i]) { i := n; }
    }
  }

  // A customer is denied for revocation exactly when no licence is active and a most recent one is revoked.
  lemma {:induction false} RevocationFollowsEffectiveLicense(rows: seq<HeldLicense>)
    ensures var best := EffectiveLicense(rows);
            && (best.None? <==> rows == [])
            && (best.Some? ==> best.value in rows && forall r | r in rows :: Precedes(best.value, r))
            && ((best.Some? && best.value.status.LicenseRevoked?) ==> forall r | r in rows :: !r.status.LicenseActive?)
  {
    if rows != [] {
      var n := |rows| - 1;
      RevocationFollowsEffectiveLicense(rows[..n]);
      assert rows == rows[..n] + [rows[n]];
    }
  }

  ghost predicate MostRecent(rows: seq<HeldLicense>, r: HeldLicense) {
    r in rows && forall other | other in rows :: r.issuedAt >= other.issuedAt
  }

  // The gate in terms of the rows: it stays shut without an active or trialing subscription, and for
  // a customer with no active licence whose most recent licences are all revoked; it is never shut
  // by revocation while a licence is active or no most recent one is revoked.
  lemma GateMeans(s: Sources)
    ensures Loaded(s).subscriptionGrantsCloud <==> exists r | r in s.subscriptions :: r.status.GrantsCloud()
    ensures Loaded(s).revoked ==>
              && (forall r | r in s.licenses :: !r.status.LicenseActive?)
              && exists r :: MostRecent(s.licenses, r) && r.status.LicenseRevoked?
    ensures (s.licenses != [] && (forall r | r in s.licenses :: !r.status.LicenseActive?)
             && (forall r | MostRecent(s.licenses, r) :: r.status.LicenseRevoked?)) ==> Loaded(s).revoked
  {
    CurrentSubscriptionMeans(s.subscriptions);
    RevocationFollowsEffectiveLicense(s.licenses);
    var best := EffectiveLicense(s.licenses);
    if best.Some? && !best.value.status.LicenseActive? {
      assert MostRecent(s.licenses, best.value);
    }
  }

  // From rows to result: whatever plans, grants, promotions, overrides and the policy say, a cloud
  // key is on only with an active or trialing subscription and no denial for revocation.
  lemma CloudNeedsSubscription(s: Sources, key: string)
    requires IsCloudFeature(key) && key in Evaluated(Loaded(s)).features
    requires Evaluated(Loaded(s)).features[key] != Bool(false)
    ensures exists r | r in s.subscriptions :: r.status.GrantsCloud()
    ensures s.licenses == [] || (exists r | r in s.licenses :: r.status.LicenseActive?)
            || exists r :: MostRecent(s.licenses, r) && !r.status.LicenseRevoked?
  {
    GateMeans(s);
  }

  // --- Where a value comes from -----------------------------------------------------------------------

  // The first of two that is there.
  function Else<V>(first: Option<V>, second: Option<V>): Option<V> {
    if first.Some? then first else second
  }

  // What the commercial policy says of a feature and of a quota.
  function PolicyFeature(limits: Limits, key: string): Option<FeatureValue> {
    if key == "authorforge.cloud.enabled" then Some(Bool(limits.cloudTokens > 0))
    else if key == "authorforge.deep_analysis.enabled" then Some(Bool(limits.deepAnalysisRuns > 0))
    else if key == "authorforge.premium.enabled" then Some(Bool(limits.premiumRequests > 0))
    else if key == "authorforge.devices.max" then Some(Number(limits.deviceLimit as real))
    else None
  }

  function PolicyQuota(limits: Limits, key: string): Option<real> {
    if key == "cloud_tokens.monthly" then Some(limits.cloudTokens as real)
    else if key == "deep_analysis_runs.monthly" then Some(limits.deepAnalysisRuns as real)
    else if key == "premium_model_requests.monthly" then Some(limits.premiumRequests as real)
    else None
  }

  // A plan gives what the policy says, or else its own term.
  function PlanFeature(plan: Option<PlanTerms>, limits: Option<Limits>, key: string): Option<FeatureValue> {
    if plan.None? then None
    else Else(if limits.Some? then PolicyFeature(limits.value, key) else None, Get(plan.value.features, key))
  }

  function PlanQuota(plan: Option<PlanTerms>, limits: Option<Limits>, key: string): Option<real> {
    if plan.None? then None
    else Else(if limits.Some? then PolicyQuota(limits.value, key) else None, Get(plan.value.quotas, key))
  }

  // The policy counts for one product, and per plan.
  function IncludedLimits(s: Sources): Option<Limits> {
    if s.product == "authorforge" && s.policy.Some? then Some(s.policy.value.included) else None
  }

  function CurrentLimits(s: Sources): Option<Limits> {
    var plan := CurrentPlan(s);
    if s.product != "authorforge" || s.policy.None? || plan.None? then None
    else if plan.value.key == "authorforge_included" then Some(s.policy.value.included)
    else if plan.value.key == "authorforge_pro" then Some(s.policy.value.pro)
    else None
  }

  lemma PlanGivesFeature(plan: Option<PlanTerms>, limits: Option<Limits>, key: string)
    ensures Get(if plan.Some? then PlanLayer(plan.value, limits) else map[], key) == PlanFeature(plan, limits, key)
  {
  }

  lemma PlanGivesQuota(plan: Option<PlanTerms>, limits: Option<Limits>, key: string)
    ensures Get(if plan.Some? then PlanQuotas(plan.value, limits) else map[], key) == PlanQuota(plan, limits, key)
  {
  }

  lemma LayersGive(inputs: Inputs, key: string)
    ensures Get(Overlay(Layers(inputs)), key)
         == Else(Get(inputs.adminOverrides, key),
                 Else(Get(inputs.promotionalGrants, key),
                      Else(Get(inputs.licenseGrants, key),
                           Else(Get(inputs.planVersion, key), Get(inputs.productDefaults, key)))))
  {
    var layers := Layers(inputs);
    OverlayMeans(layers, key);
    if key in layers[4] {
      assert Decides(layers, key, 4);
    } else if key in layers[3] {
      assert Decides(layers, key, 3);
    } else if key in layers[2] {
      assert Decides(layers, key, 2);
    } else if key in layers[1] {
      assert Decides(layers, key, 1);
    } else if key in layers[0] {
      assert Decides(layers, key, 0);
    }
  }

  // What the plans give a feature: the current subscription's first, then the included one.
  function PlansGiveFeature(s: Sources, key: string): Option<FeatureValue> {
    Else(PlanFeature(CurrentPlan(s), CurrentLimits(s), key), PlanFeature(s.included, IncludedLimits(s), key))
  }

  function PlansGiveQuota(s: Sources, key: string): Option<real> {
    Else(PlanQuota(CurrentPlan(s), CurrentLimits(s), key), PlanQuota(s.included, IncludedLimits(s), key))
  }

  lemma LimitsInForce(s: Sources)
    ensures Baseline(s) == IncludedLimits(s) && PlanLimits(s) == CurrentLimits(s)
  {
  }

  lemma LoadedPlans(s: Sources, key: string)
    ensures Else(Get(Loaded(s).planVersion, key), Get(Loaded(s).productDefaults, key)) == PlansGiveFeature(s, key)
  {
    LimitsInForce(s);
    PlanGivesFeature(s.included, Baseline(s), key);
    PlanGivesFeature(CurrentPlan(s), PlanLimits(s), key);
  }

  lemma QuotaTermsGive(included: Option<PlanTerms>, baseline: Option<Limits>, current: Option<PlanTerms>,
                       limits: Option<Limits>, key: string)
    ensures Get(QuotaTerms(included, baseline, current, limits), key)
         == Else(PlanQuota(current, limits, key), PlanQuota(included, baseline, key))
  {
    PlanGivesQuota(included, baseline, key);
    PlanGivesQuota(current, limits, key);
  }

  // From rows to result, a feature: the last override, else the last promotion, else the last licence
  // grant, else what the plans give; a cloud key is false behind a shut gate.
  lemma FeatureComesFrom(s: Sources, key: string)
    ensures var given := Else(LastFeature(s.overrides, key),
                              Else(LastFeature(s.promotions, key),
                                   Else(LastFeature(s.licenseGrants, key), PlansGiveFeature(s, key))));
            var shut := !Loaded(s).subscriptionGrantsCloud || Loaded(s).revoked;
            Get(Evaluated(Loaded(s)).features, key)
            == if given.Some? && shut && IsCloudFeature(key) then Some(Bool(false)) else given
  {
    var inputs := Loaded(s);
    LayersGive(inputs, key);
    LastGrantWins(s.overrides, map[], map[], key);
    LastGrantWins(s.promotions, map[], map[], key);
    LastGrantWins(s.licenseGrants, map[], map[], key);
    LoadedPlans(s, key);
    GateGives(inputs, key);
  }

  lemma GateGives(inputs: Inputs, key: string)
    ensures var given := Get(Overlay(Layers(inputs)), key);
            Get(Evaluated(inputs).features, key)
            == if given.Some? && Gated(inputs) && IsCloudFeature(key) then Some(Bool(false)) else given
  {
  }

  // And a quota: the last override, else the last promotion, else what the plans give. A licence grants
  // none, and no gate takes one away.
  lemma QuotaComesFrom(s: Sources, key: string)
    ensures Get(Evaluated(Loaded(s)).quotas, key)
         == Else(LastQuota(s.overrides, key), Else(LastQuota(s.promotions, key), PlansGiveQuota(s, key)))
  {
    var terms := QuotaTerms(s.included, Baseline(s), CurrentPlan(s), PlanLimits(s));
    LimitsInForce(s);
    QuotaTermsGive(s.included, Baseline(s), CurrentPlan(s), PlanLimits(s), key);
    LastGrantWins(s.promotions, map[], terms, key);
    LastGrantWins(s.overrides, map[], MergedQuotas(s.promotions, terms), key);
  }
}
