/** Redaction of outbox payloads: what is removed, what is kept, and that one pass is enough. */
module Redaction {
  import opened Wrappers

  datatype Json =
    | Null
    | Boolean(flag: bool)
    | Number(number: real)
    | String(text: string)
    | Array(items: seq<Json>)
    | Object(members: seq<(string, Json)>)

  const PROHIBITED_KEYS: set<string> := {
    "email", "full_name", "name", "display_name", "stripe_customer_id", "payment_method", "card",
    "raw_payload", "password", "session", "refresh_token", "access_token", "manuscript", "prompt", "content"
  }

  // An object holds each key once, at every depth.
  ghost predicate UniqueKeys(v: Json) {
    match v
    case Object(ms) =>
      && (forall i, j | 0 <= i < j < |ms| :: ms[i].0 != ms[j].0)
      && (forall i | 0 <= i < |ms| :: UniqueKeys(ms[i].1))
    case Array(items) => forall i | 0 <= i < |items| :: UniqueKeys(items[i])
    case _ => true
  }

  predicate ContainsProhibited(v: Json) {
    match v
    case Object(ms) => exists i | 0 <= i < |ms| :: ms[i].0 in PROHIBITED_KEYS || ContainsProhibited(ms[i].1)
    case Array(items) => exists i | 0 <= i < |items| :: ContainsProhibited(items[i])
    case _ => false
  }

  function Allowed(ms: seq<(string, Json)>): seq<(string, Json)> {
    if ms == [] then []
    else Allowed(ms[..|ms| - 1]) + (if ms[|ms| - 1].0 in PROHIBITED_KEYS then [] else [ms[|ms| - 1]])
  }

  function Sanitized(v: Json): Json {
    match v
    case Object(ms) => Object(Allowed(seq(|ms|, i requires 0 <= i < |ms| => (ms[i].0, Sanitized(ms[i].1)))))
    case Array(items) => Array(seq(|items|, i requires 0 <= i < |items| => Sanitized(items[i])))
    case _ => v
  }

  // A map insert: replace the value under the key, or add the key.
  function Insert(ms: seq<(string, Json)>, key: string, value: Json): seq<(string, Json)> {
    if ms == [] then [(key, value)]
    else if ms[0].0 == key then [(key, value)] + ms[1..]
    else [ms[0]] + Insert(ms[1..], key, value)
  }

  lemma {:induction false} InsertNewKey(ms: seq<(string, Json)>, key: string, value: Json)
    requires forall i | 0 <= i < |ms| :: ms[i].0 != key
    ensures Insert(ms, key, value) == ms + [(key, value)]
  {
    if ms != [] { InsertNewKey(ms[1..], key, value); }
  }

  lemma {:induction false} AllowedKeys(ms: seq<(string, Json)>)
    ensures forall m | m in Allowed(ms) :: m in ms && m.0 !in PROHIBITED_KEYS
    ensures forall m | m in ms && m.0 !in PROHIBITED_KEYS :: m in Allowed(ms)
    ensures |Allowed(ms)| <= |ms|
    ensures Allowed(ms) == ms <==> forall m | m in ms :: m.0 !in PROHIBITED_KEYS
  {
    if ms != [] {
      var n := |ms| - 1;
      AllowedKeys(ms[..n]);
      assert ms == ms[..n] + [ms[n]];
    }
  }

  // Every key comes once, so an insert in order adds its key at the end.
  lemma InsertIsNew(all: seq<(string, Json)>, i: nat)
    requires i < |all| && all[i].0 !in PROHIBITED_KEYS
    requires forall j, k | 0 <= j < k < |all| :: all[j].0 != all[k].0
    ensures Insert(Allowed(all[..i]), all[i].0, all[i].1) == Allowed(all[..i + 1])
  {
    var members := Allowed(all[..i]);
    AllowedKeys(all[..i]);
    forall j | 0 <= j < |members| ensures members[j].0 != all[i].0 {
      assert members[j] in all[..i];
    }
    InsertNewKey(members, all[i].0, all[i].1);
    assert all[..i + 1][..i] == all[..i];
  }

  method Sanitize(value: Json) returns (out: Json)
    requires UniqueKeys(value)
    ensures out == Sanitized(value)
    decreases value
  {
    match value {
      case Object(ms) =>
        ghost var all := seq(|ms|, i requires 0 <= i < |ms| => (ms[i].0, Sanitized(ms[i].1)));
        var members: seq<(string, Json)> := [];
        for i := 0 to |ms|
          invariant members == Allowed(all[..i])
        {
          assert all[..i + 1][..i] == all[..i];
          if ms[i].0 in PROHIBITED_KEYS {
            continue;
          }
          var clean := Sanitize(ms[i].1);
          InsertIsNew(all, i);
          members := Insert(members, ms[i].0, clean);
        }
        assert all[..|ms|] == all;
        out := Object(members);
      case Array(items) =>
        var clean: seq<Json> := [];
        for i := 0 to |items|
          invariant clean == seq(i, j requires 0 <= j < i => Sanitized(items[j]))
        {
          var item := Sanitize(items[i]);
          clean := clean + [item];
        }
        out := Array(clean);
      case _ =>
        out := value;
    }
  }

  // Nothing prohibited is left, at any depth.
  lemma {:induction false} SanitizedIsClean(v: Json)
    ensures !ContainsProhibited(Sanitized(v))
  {
    match v {
      case Object(ms) =>
        var all := seq(|ms|, i requires 0 <= i < |ms| => (ms[i].0, Sanitized(ms[i].1)));
        AllowedKeys(all);
        var kept := Allowed(all);
        forall i | 0 <= i < |kept| ensures kept[i].0 !in PROHIBITED_KEYS && !ContainsProhibited(kept[i].1) {
          assert kept[i] in kept;
          var j :| 0 <= j < |all| && all[j] == kept[i];
          SanitizedIsClean(ms[j].1);
        }
      case Array(items) =>
        forall i | 0 <= i < |items| ensures !ContainsProhibited(Sanitized(items[i])) {
          SanitizedIsClean(items[i]);
        }
      case _ =>
    }
  }

  // A payload comes through unchanged exactly when it held nothing prohibited.
  lemma {:induction false} UnchangedIffClean(v: Json)
    ensures Sanitized(v) == v <==> !ContainsProhibited(v)
  {
    if Sanitized(v) == v { SanitizedIsClean(v); }
    if !ContainsProhibited(v) { CleanIsUnchanged(v); }
  }

  lemma {:induction false} CleanIsUnchanged(v: Json)
    requires !ContainsProhibited(v)
    ensures Sanitized(v) == v
  {
    match v {
      case Object(ms) =>
        var all := seq(|ms|, i requires 0 <= i < |ms| => (ms[i].0, Sanitized(ms[i].1)));
        forall i | 0 <= i < |ms| ensures all[i] == ms[i] {
          CleanIsUnchanged(ms[i].1);
        }
        assert all == ms;
        AllowedKeys(ms);
      case Array(items) =>
        forall i | 0 <= i < |items| ensures Sanitized(items[i]) == items[i] {
          CleanIsUnchanged(items[i]);
        }
        assert seq(|items|, i requires 0 <= i < |items| => Sanitized(items[i])) == items;
      case _ =>
    }
  }

  lemma SanitizeIsIdempotent(v: Json)
    ensures Sanitized(Sanitized(v)) == Sanitized(v)
  {
    SanitizedIsClean(v);
    CleanIsUnchanged(Sanitized(v));
  }

  // --- What is kept ---------------------------------------------------------------------------------

  datatype Step = Key(key: string) | Index(index: nat)

  function Find(ms: seq<(string, Json)>, key: string): Option<Json> {
    if ms == [] then None
    else if ms[|ms| - 1].0 == key then Some(ms[|ms| - 1].1)
    else Find(ms[..|ms| - 1], key)
  }

  // The value a path of keys and positions leads to.
  function At(v: Json, path: seq<Step>): Option<Json>
    decreases |path|
  {
    if path == [] then Some(v)
    else
      match (v, path[0])
      case (Object(ms), Key(key)) => (match Find(ms, key) case Some(next) => At(next, path[1..]) case None => None)
      case (Array(items), Index(i)) => if i < |items| then At(items[i], path[1..]) else None
      case _ => None
  }

  lemma {:induction false} FindAllowed(ms: seq<(string, Json)>, key: string)
    ensures var all := seq(|ms|, i requires 0 <= i < |ms| => (ms[i].0, Sanitized(ms[i].1)));
            Find(Allowed(all), key) == if key in PROHIBITED_KEYS || Find(ms, key).None? then None
                                       else Some(Sanitized(Find(ms, key).value))
  {
    if ms != [] {
      var n := |ms| - 1;
      var all := seq(|ms|, i requires 0 <= i < |ms| => (ms[i].0, Sanitized(ms[i].1)));
      FindAllowed(ms[..n], key);
      assert all[..n] == seq(n, i requires 0 <= i < n => (ms[..n][i].0, Sanitized(ms[..n][i].1)));
      if all[n].0 in PROHIBITED_KEYS {
        assert Allowed(all) == Allowed(all[..n]);
      } else {
        assert Allowed(all) == Allowed(all[..n]) + [all[n]];
        assert Allowed(all)[..|Allowed(all)| - 1] == Allowed(all[..n]);
      }
    }
  }

  // Redaction removes what lies behind a prohibited key and nothing else: every other path leads to
  // the redacted form of what it led to.
  lemma {:induction false} SanitizeKeepsTheRest(v: Json, path: seq<Step>)
    ensures At(Sanitized(v), path)
         == if (exists s | s in path :: s.Key? && s.key in PROHIBITED_KEYS) || At(v, path).None? then None
            else Some(Sanitized(At(v, path).value))
    decreases |path|
  {
    if path != [] {
      var rest := path[1..];
      assert path == [path[0]] + rest;
      match (v, path[0]) {
        case (Object(ms), Key(key)) =>
          FindAllowed(ms, key);
          if Find(ms, key).Some? { SanitizeKeepsTheRest(Find(ms, key).value, rest); }
        case (Array(items), Index(i)) =>
          if i < |items| { SanitizeKeepsTheRest(items[i], rest); }
        case _ =>
      }
    }
  }
}
