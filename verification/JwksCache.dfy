/**
  The customer token validator's key cache: a single-flight refresh with a cooldown, whatever key
  ids arrive and whether refreshes fail. Times are nanoseconds of a clock that does not go back.
 */
module JwksCache {
  import opened Wrappers

  const SECOND: nat := 1_000_000_000
  const CACHE_TTL: nat := 600 * SECOND
  const REFRESH_INTERVAL: nat := 60 * SECOND
  const MAX_KEYS: nat := 32
  const MAX_TOKEN_BYTES: nat := 16 * 1024
  const MAX_KID_BYTES: nat := 128

  datatype Jwk = Jwk(
    kid: Option<string>,
    algorithm: Option<string>,
    usage: Option<string>,
    operations: Option<set<string>>,
    curve: Option<string>,
    material: Option<nat>)

  datatype Key = Key(kid: string, material: nat)

  datatype Algorithm = Hs256 | Es256 | OtherAlgorithm

  datatype Header = Header(algorithm: Algorithm, kid: Option<string>)

  datatype Token = Token(length: nat, header: Option<Header>)

  // Who decides about the token: nobody, the legacy secret, or the signature check with a key.
  datatype Answer = Invalid | Unavailable | Legacy | VerifyWith(key: Key)

  datatype Cache = Cache(keys: seq<Key>, fetchedAt: Option<nat>, attemptedAt: Option<nat>)

  // One validation: the clock as the code reads it, and what a refresh would bring back.
  datatype Call = Call(token: Token, entered: nat, cooled: nat, attempted: nat, fetched: nat,
                       response: Option<seq<Jwk>>)

  // --- Parsing a key set ----------------------------------------------------------------------------

  predicate Named(jwk: Jwk) {
    jwk.kid.Some? && 0 < |jwk.kid.value| <= MAX_KID_BYTES
  }

  predicate Usable(jwk: Jwk) {
    && Named(jwk)
    && jwk.algorithm == Some("ES256")
    && (jwk.usage.Some? ==> jwk.usage.value == "sig")
    && (jwk.operations.Some? ==> "verify" in jwk.operations.value)
    && jwk.curve == Some("P-256")
  }

  ghost predicate Acceptable(jwks: seq<Jwk>) {
    && (forall i, j | 0 <= i < j < |jwks| && Named(jwks[i]) && Named(jwks[j]) :: jwks[i].kid != jwks[j].kid)
    && (forall i | 0 <= i < |jwks| && Usable(jwks[i]) :: jwks[i].material.Some?)
  }

  function KeysOf(jwks: seq<Jwk>): seq<Key> {
    if jwks == [] then []
    else
      var jwk := jwks[|jwks| - 1];
      KeysOf(jwks[..|jwks| - 1])
      + (if Usable(jwk) && jwk.material.Some? then [Key(jwk.kid.value, jwk.material.value)] else [])
  }

  ghost function Parsed(jwks: seq<Jwk>): Option<seq<Key>> {
    if |jwks| <= MAX_KEYS && Acceptable(jwks) then Some(KeysOf(jwks)) else None
  }

  method ParseKeys(jwks: seq<Jwk>) returns (keys: Option<seq<Key>>)
    ensures keys == Parsed(jwks)
  {
    if |jwks| > MAX_KEYS {
      return None;
    }
    var seen: set<string> := {};
    var parsed: seq<Key> := [];
    for i := 0 to |jwks|
      invariant parsed == KeysOf(jwks[..i])
      invariant forall kid :: kid in seen <==> exists j :: 0 <= j < i && Named(jwks[j]) && jwks[j].kid.value == kid
      invariant forall j, k | 0 <= j < k < i && Named(jwks[j]) && Named(jwks[k]) :: jwks[j].kid != jwks[k].kid
      invariant forall j | 0 <= j < i && Usable(jwks[j]) :: jwks[j].material.Some?
    {
      var jwk := jwks[i];
      assert jwks[..i + 1][..i] == jwks[..i];
      if !Named(jwk) {
        continue;
      }
      if jwk.kid.value in seen {
        return None;
      }
      seen := seen + {jwk.kid.value};
      if !Usable(jwk) {
        continue;
      }
      if jwk.material.None? {
        return None;
      }
      parsed := parsed + [Key(jwk.kid.value, jwk.material.value)];
    }
    assert jwks[..|jwks|] == jwks;
    keys := Some(parsed);
  }

  // The parsed keys are the usable ones, and no key id names two of them.
  lemma {:induction false} KeysAreUsable(jwks: seq<Jwk>)
    requires Acceptable(jwks)
    ensures forall key :: key in KeysOf(jwks) <==>
              exists j :: 0 <= j < |jwks| && Usable(jwks[j]) && Key(jwks[j].kid.value, jwks[j].material.value) == key
    ensures forall i, j | 0 <= i < j < |KeysOf(jwks)| :: KeysOf(jwks)[i].kid != KeysOf(jwks)[j].kid
  {
    if jwks != [] {
      var n := |jwks| - 1;
      KeysAreUsable(jwks[..n]);
      forall key | key in KeysOf(jwks[..n])
        ensures exists j :: 0 <= j < n && Usable(jwks[j]) && Key(jwks[j].kid.value, jwks[j].material.value) == key
      {
        var j :| 0 <= j < n && Usable(jwks[..n][j]) && Key(jwks[..n][j].kid.value, jwks[..n][j].material.value) == key;
        assert jwks[j] == jwks[..n][j];
      }
      forall j | 0 <= j < n && Usable(jwks[j])
        ensures Key(jwks[j].kid.value, jwks[j].material.value) in KeysOf(jwks[..n])
      {
        assert jwks[..n][j] == jwks[j];
      }
      forall i | 0 <= i < |KeysOf(jwks[..n])| && Usable(jwks[n])
        ensures KeysOf(jwks[..n])[i].kid != jwks[n].kid.value
      {
        assert KeysOf(jwks[..n])[i] in KeysOf(jwks[..n]);
      }
    }
  }

  // --- Validating a token ---------------------------------------------------------------------------

  function Elapsed(since: nat, now: nat): nat {
    if now >= since then now - since else 0
  }

  function Lookup(keys: seq<Key>, kid: string): (r: Option<Key>)
    ensures r.Some? ==> r.value in keys && r.value.kid == kid
    ensures r.None? ==> forall key | key in keys :: key.kid != kid
  {
    if keys == [] then None
    else if keys[0].kid == kid then Some(keys[0])
    else Lookup(keys[1..], kid)
  }

  // The key id an ES256 token names, or the answer given without looking at the cache.
  function KeyIdOf(token: Token): (r: (Answer, string))
    ensures r.0.Unavailable? ==> 0 < |r.1| <= MAX_KID_BYTES
  {
    if token.length > MAX_TOKEN_BYTES || token.header.None? then (Invalid, "")
    else
      match token.header.value.algorithm
      case Hs256 => (Legacy, "")
      case OtherAlgorithm => (Invalid, "")
      case Es256 =>
        var kid := token.header.value.kid;
        if kid.Some? && 0 < |kid.value| <= MAX_KID_BYTES then (Unavailable, kid.value) else (Invalid, "")
  }

  predicate NeedsCache(token: Token) {
    KeyIdOf(token).0.Unavailable?
  }

  predicate Fresh(c: Cache, now: nat) {
    c.fetchedAt.Some? && Elapsed(c.fetchedAt.value, now) < CACHE_TTL
  }

  predicate Cooling(c: Cache, now: nat) {
    c.attemptedAt.Some? && Elapsed(c.attemptedAt.value, now) < REFRESH_INTERVAL
  }

  // A refresh goes out.
  predicate Attempts(c: Cache, call: Call) {
    && NeedsCache(call.token)
    && !(Fresh(c, call.entered) && Lookup(c.keys, KeyIdOf(call.token).1).Some?)
    && !Cooling(c, call.cooled)
  }

  ghost function Fetch(call: Call): Option<seq<Key>> {
    if call.response.Some? then Parsed(call.response.value) else None
  }

  ghost function Refreshed(c: Cache, call: Call): Cache {
    if !Attempts(c, call) then c
    else
      match Fetch(call)
      case None => c.(attemptedAt := Some(call.attempted))
      case Some(keys) => Cache(keys, Some(call.fetched), Some(call.attempted))
  }

  // What the caller hears: a key of a fresh cache, or why there is none.
  ghost predicate Answers(c: Cache, call: Call, answer: Answer) {
    var after, kid := Refreshed(c, call), KeyIdOf(call.token).1;
    if !NeedsCache(call.token) then answer == KeyIdOf(call.token).0
    else if Attempts(c, call) then
      answer == if Fetch(call).None? then Unavailable
                else if Lookup(after.keys, kid).Some? then VerifyWith(Lookup(after.keys, kid).value)
                else Invalid
    else
      answer == if !Fresh(c, call.entered) then Unavailable
                else if Lookup(c.keys, kid).Some? then VerifyWith(Lookup(c.keys, kid).value)
                else Invalid
  }

  class CustomerJwtValidator {
    var keys: seq<Key>
    var fetchedAt: Option<nat>
    var attemptedAt: Option<nat>

    function State(): Cache
      reads this
    {
      Cache(keys, fetchedAt, attemptedAt)
    }

    constructor ()
      ensures State() == Cache([], None, None)
    {
      keys, fetchedAt, attemptedAt := [], None, None;
    }

    method Validate(call: Call) returns (answer: Answer)
      modifies this
      ensures State() == Refreshed(old(State()), call)
      ensures Answers(old(State()), call, answer)
    {
      var (early, kid) := KeyIdOf(call.token);
      if !early.Unavailable? {
        return early;
      }
      var stillFresh := fetchedAt.Some? && Elapsed(fetchedAt.value, call.entered) < CACHE_TTL;
      if stillFresh {
        var key := Lookup(keys, kid);
        if key.Some? {
          return VerifyWith(key.value);
        }
      }
      if attemptedAt.Some? && Elapsed(attemptedAt.value, call.cooled) < REFRESH_INTERVAL {
        return if stillFresh then Invalid else Unavailable;
      }
      attemptedAt := Some(call.attempted);
      if call.response.None? {
        return Unavailable;
      }
      var parsed := ParseKeys(call.response.value);
      if parsed.None? {
        return Unavailable;
      }
      keys := parsed.value;
      fetchedAt := Some(call.fetched);
      var key := Lookup(keys, kid);
      answer := if key.Some? then VerifyWith(key.value) else Invalid;
    }
  }

  // --- Runs -----------------------------------------------------------------------------------------

  ghost function Run(calls: seq<Call>): Cache {
    if calls == [] then Cache([], None, None)
    else Refreshed(Run(calls[..|calls| - 1]), calls[|calls| - 1])
  }

  lemma RunStep(calls: seq<Call>, n: nat)
    requires n < |calls|
    ensures Run(calls[..n + 1]) == Refreshed(Run(calls[..n]), calls[n])
  {
    assert calls[..n + 1][..n] == calls[..n];
  }

  // The cache lock is held throughout a call, so the readings of a run come in order.
  ghost predicate Clocked(calls: seq<Call>) {
    && (forall c | c in calls :: c.entered <= c.cooled <= c.attempted <= c.fetched)
    && forall i, j | 0 <= i < j < |calls| :: calls[i].fetched <= calls[j].entered
  }

  // When refreshes went out.
  ghost function AttemptTimes(calls: seq<Call>): seq<nat> {
    if calls == [] then []
    else
      var before, c := calls[..|calls| - 1], calls[|calls| - 1];
      AttemptTimes(before) + (if Attempts(Run(before), c) then [c.attempted] else [])
  }

  lemma {:induction false} AttemptsAreSpaced(calls: seq<Call>)
    requires Clocked(calls)
    ensures var times := AttemptTimes(calls);
            && (Run(calls).attemptedAt == if times == [] then None else Some(times[|times| - 1]))
            && forall i | 0 <= i < |times| - 1 :: times[i + 1] - times[i] >= REFRESH_INTERVAL
  {
    if calls != [] {
      AttemptsAreSpaced(calls[..|calls| - 1]);
    }
  }

  lemma {:induction false} SpacedApart(times: seq<nat>, i: nat, j: nat)
    requires i <= j < |times|
    requires forall k | 0 <= k < |times| - 1 :: times[k + 1] - times[k] >= REFRESH_INTERVAL
    ensures times[j] - times[i] >= (j - i) * REFRESH_INTERVAL
    decreases j - i
  {
    if i < j { SpacedApart(times, i, j - 1); }
  }

  // Any stretch of time sees at most one refresh a minute, plus one.
  lemma AttemptsAreFew(calls: seq<Call>, i: nat, j: nat, span: nat)
    requires Clocked(calls)
    requires i <= j < |AttemptTimes(calls)| && AttemptTimes(calls)[j] - AttemptTimes(calls)[i] <= span
    ensures j - i + 1 <= span / REFRESH_INTERVAL + 1
  {
    AttemptsAreSpaced(calls);
    SpacedApart(AttemptTimes(calls), i, j);
  }

  // The latest call whose refresh succeeded.
  ghost function LastRefresh(calls: seq<Call>): (k: Option<nat>)
    ensures k.Some? ==> k.value < |calls|
  {
    if calls == [] then None
    else
      var before, c := calls[..|calls| - 1], calls[|calls| - 1];
      if Attempts(Run(before), c) && Fetch(c).Some? then Some(|calls| - 1) else LastRefresh(before)
  }

  // The cache holds the keys the latest successful refresh brought, and the time it ended.
  lemma {:induction false} CacheIsLastRefresh(calls: seq<Call>)
    ensures match LastRefresh(calls)
            case None => Run(calls).keys == [] && Run(calls).fetchedAt == None
            case Some(k) => Fetch(calls[k]) == Some(Run(calls).keys) && Run(calls).fetchedAt == Some(calls[k].fetched)
  {
    if calls != [] { CacheIsLastRefresh(calls[..|calls| - 1]); }
  }

  // A token is checked only with a key of its own key id that the latest successful refresh
  // brought, and that refresh is this very call's or ended less than ten minutes ago.
  lemma VerifiesWithRecentKeysOnly(calls: seq<Call>, call: Call, answer: Answer)
    requires Clocked(calls + [call])
    requires Answers(Run(calls), call, answer) && answer.VerifyWith?
    ensures call.token.header.Some? && call.token.header.value.kid == Some(answer.key.kid)
    ensures var all := calls + [call];
            && LastRefresh(all).Some?
            && var refresh := all[LastRefresh(all).value];
            && Fetch(refresh).Some? && answer.key in Fetch(refresh).value
            && (refresh == call || call.entered - refresh.fetched < CACHE_TTL)
  {
    var all := calls + [call];
    assert all[..|calls|] == calls && all[|calls|] == call;
    if !Attempts(Run(calls), call) {
      CacheIsLastRefresh(calls);
      var k := LastRefresh(calls).value;
      assert all[k] == calls[k];
      assert all[k].fetched <= all[|calls|].entered;
    }
  }

  // A refresh that fails costs the cooldown and nothing else: keys still fresh go on serving.
  lemma FailedRefreshKeepsKeys(c: Cache, call: Call, later: Call, answer: Answer)
    requires Fetch(call).None?
    requires Fresh(c, later.entered) && NeedsCache(later.token) && Lookup(c.keys, KeyIdOf(later.token).1).Some?
    ensures Refreshed(c, call).keys == c.keys && Refreshed(c, call).fetchedAt == c.fetchedAt
    ensures Answers(Refreshed(c, call), later, answer) <==>
        answer == VerifyWith(Lookup(c.keys, KeyIdOf(later.token).1).value)
  {
  }

  // --- What a request is answered -------------------------------------------------------------------

  // A signed token that names a key.
  predicate Asks(token: Token, kid: string) {
    && token.length <= 16384 && token.header.Some? && token.header.value == Header(Es256, Some(kid))
    && 1 <= |kid| <= 128
  }

  // Within so many seconds after the time.
  predicate Within(since: Option<nat>, now: nat, seconds: nat) {
    since.Some? && now < since.value + seconds * 1_000_000_000
  }

  predicate HasKey(keys: seq<Key>, kid: string) {
    exists key | key in keys :: key.kid == kid
  }

  // Oversized or unreadable tokens and unknown algorithms are invalid, the legacy algorithm is handed
  // on, and neither touches the cache.
  lemma OtherTokensMean(c: Cache, call: Call, answer: Answer)
    requires forall kid :: !Asks(call.token, kid)
    requires Answers(c, call, answer)
    ensures Refreshed(c, call) == c
    ensures answer == if call.token.length <= 16384 && call.token.header.Some?
                         && call.token.header.value.algorithm.Hs256? then Legacy else Invalid
  {
    if NeedsCache(call.token) { assert Asks(call.token, KeyIdOf(call.token).1); }
  }

  // A key of a cache under ten minutes old answers at once. Otherwise, within a minute of the last
  // attempt nothing is fetched, and an unknown id is invalid while the cache is fresh; after that one
  // fetch goes out, its keys replace the old ones if it succeeds, and they decide.
  lemma AnswerMeans(c: Cache, call: Call, kid: string, answer: Answer)
    requires Asks(call.token, kid) && Answers(c, call, answer)
    requires c.fetchedAt.Some? ==> c.fetchedAt.value <= call.entered
    requires c.attemptedAt.Some? ==> c.attemptedAt.value <= call.cooled
    ensures var c', recent := Refreshed(c, call), Within(c.fetchedAt, call.entered, 600);
            && (answer.VerifyWith? ==> answer.key in c'.keys && answer.key.kid == kid)
            && if recent && HasKey(c.keys, kid) then c' == c && answer.VerifyWith?
               else if Within(c.attemptedAt, call.cooled, 60) then
                 c' == c && answer == if recent then Invalid else Unavailable
               else if Fetch(call).None? then
                 c' == c.(attemptedAt := Some(call.attempted)) && answer == Unavailable
               else
                 && c' == Cache(Fetch(call).value, Some(call.fetched), Some(call.attempted))
                 && (answer.VerifyWith? <==> HasKey(c'.keys, kid)) && (answer.Invalid? <==> !HasKey(c'.keys, kid))
  {
    assert KeyIdOf(call.token) == (Unavailable, kid);
  }

  // The keys of an accepted set, in the terms of its entries: P-256 keys for ES256 signatures, with an
  // id of at most 128 characters, not meant for another use, and free to verify.
  lemma AcceptedKeys(jwks: seq<Jwk>, key: Key)
    requires Parsed(jwks).Some?
    ensures |jwks| <= 32
    ensures key in Parsed(jwks).value <==>
              exists j :: 0 <= j < |jwks| && Offers(jwks[j], key)
  {
    KeysAreUsable(jwks);
    if key in KeysOf(jwks) {
      var j :| 0 <= j < |jwks| && Usable(jwks[j]) && Key(jwks[j].kid.value, jwks[j].material.value) == key;
      assert Offers(jwks[j], key);
    }
    if j :| 0 <= j < |jwks| && Offers(jwks[j], key) {
      assert Usable(jwks[j]) && Key(jwks[j].kid.value, jwks[j].material.value) == key;
    }
  }

  predicate Offers(jwk: Jwk, key: Key) {
    && jwk.kid == Some(key.kid) && 1 <= |key.kid| <= 128 && jwk.material == Some(key.material)
    && jwk.algorithm == Some("ES256") && jwk.curve == Some("P-256")
    && (jwk.usage == None || jwk.usage == Some("sig"))
    && (jwk.operations.Some? ==> "verify" in jwk.operations.value)
  }

  // Any requests through the cache in place end where the run says, each answered from the cache it met.
  method Serve(calls: seq<Call>) returns (validator: CustomerJwtValidator, answers: seq<Answer>)
    ensures fresh(validator) && validator.State() == Run(calls)
    ensures |answers| == |calls| && forall i | 0 <= i < |calls| :: Answers(Run(calls[..i]), calls[i], answers[i])
  {
    validator := new CustomerJwtValidator();
    answers := [];
    for i := 0 to |calls|
      invariant fresh(validator) && validator.State() == Run(calls[..i])
      invariant |answers| == i && forall j | 0 <= j < i :: Answers(Run(calls[..j]), calls[j], answers[j])
    {
      RunStep(calls, i);
      var answer := validator.Validate(calls[i]);
      answers := answers + [answer];
    }
    assert calls[..|calls|] == calls;
  }
}
