/**
 * The configuration controller (src/controllers/config.controller.js):
 * reading the effective settings, updating the process environment from a
 * validated request body in development, and clearing the response cache.
 *
 * The process environment is the object `Environment`, whose `vars` map the
 * handlers read and `updateConfig` writes. The request body is the parsed
 * JSON object, as `Entries`.
 */
module Config {
  import opened Js
  import Cache
  import Scraper

  // ---------------------------------------------------------------------
  // The schema (lines 6-17)
  // ---------------------------------------------------------------------

  /** The constraint one schema key puts on its value. */
  datatype Rule =
    | IntegerAtLeast(min: int)
    | IntegerBetween(lo: int, hi: int)
    | NonEmptyString
    | Boolean
    | OneOf(options: seq<string>)

  /** Keys with their rules, in declaration order. */
  type Table = seq<(string, Rule)>

  const LogLevels: seq<string> := ["error", "warn", "info", "debug"]

  /** `Number.MAX_SAFE_INTEGER`: Joi's `number()` refuses values beyond it in either direction. */
  const MaxSafeInteger: int := 9007199254740991

  predicate IsSafeInteger(n: int) {
    -MaxSafeInteger <= n <= MaxSafeInteger
  }

  /** The schema of lines 6-17. */
  const Schema: Table := [
    ("DEFAULT_PAGE_SIZE", IntegerBetween(1, 100)),
    ("DEFAULT_TRADE_SIZES", NonEmptyString),
    ("DEFAULT_ASSET_TYPE", NonEmptyString),
    ("CACHE_ENABLED", Boolean),
    ("CACHE_TTL", IntegerAtLeast(1)),
    ("RATE_LIMIT_WINDOW_MS", IntegerAtLeast(1000)),
    ("RATE_LIMIT_MAX_REQUESTS", IntegerAtLeast(1)),
    ("MAX_RETRIES", IntegerAtLeast(0)),
    ("RETRY_DELAY_MS", IntegerAtLeast(100)),
    ("LOG_LEVEL", OneOf(LogLevels))]

  predicate DistinctTableKeys(t: Table) {
    forall i, j :: 0 <= i < j < |t| ==> t[i].0 != t[j].0
  }

  function RuleIn(t: Table, key: string): Option<Rule>
    decreases |t|
  {
    if t == [] then None
    else if t[0].0 == key then Some(t[0].1)
    else RuleIn(t[1..], key)
  }

  /** The rule the schema gives `key`, or `None` for a key the schema does not declare. */
  function RuleOf(key: string): Option<Rule> {
    RuleIn(Schema, key)
  }

  /** In a table with distinct keys, a key has a rule exactly when it is listed, and it is the listed one. */
  lemma {:induction false} RuleInFinds(t: Table, key: string)
    requires DistinctTableKeys(t)
    ensures RuleIn(t, key).Some? <==> exists j :: 0 <= j < |t| && t[j].0 == key
    ensures forall j :: 0 <= j < |t| && t[j].0 == key ==> RuleIn(t, key) == Some(t[j].1)
    decreases |t|
  {
    if t != [] {
      assert DistinctTableKeys(t[1..]);
      RuleInFinds(t[1..], key);
      assert forall j :: 1 <= j < |t| ==> t[j] == t[1..][j - 1];
      if RuleIn(t[1..], key).Some? {
        var j :| 0 <= j < |t[1..]| && t[1..][j].0 == key;
        assert t[j + 1].0 == key;
      }
    }
  }

  lemma SchemaKeysDistinct()
    ensures DistinctTableKeys(Schema)
  {
  }

  /** ASCII case folding: no upper-case letter is left, and every other character is kept. */
  function LowerAscii(s: string): (r: string)
    ensures |r| == |s|
    ensures forall i :: 0 <= i < |r| ==> !('A' <= r[i] <= 'Z')
    ensures forall i :: 0 <= i < |s| && 'A' <= s[i] <= 'Z' ==> r[i] as int - 'a' as int == s[i] as int - 'A' as int
    ensures forall i :: 0 <= i < |s| && !('A' <= s[i] <= 'Z') ==> r[i] == s[i]
  {
    seq(|s|, i requires 0 <= i < |s| => if 'A' <= s[i] <= 'Z' then (s[i] as int + 32) as char else s[i])
  }

  /** `s` spells the lower-case `word`, each letter in either case. */
  predicate SpelledInAnyCase(s: string, word: string) {
    |s| == |word| &&
    forall i :: 0 <= i < |s| ==> s[i] == word[i] || s[i] as int - 'A' as int == word[i] as int - 'a' as int
  }

  /** Line 10: `'true'` in any letter case, such as `'TRUE'` or `'True'`, is taken as `true`. */
  lemma BooleanTakesTrueInAnyCase(s: string)
    requires SpelledInAnyCase(s, "true")
    ensures Check(Boolean, Str(s)) == Some(Bool(true))
  {
    assert LowerAscii(s) == "true";
  }

  /** Line 10: `'false'` in any letter case, such as `'FALSE'` or `'False'`, is taken as `false`. */
  lemma BooleanTakesFalseInAnyCase(s: string)
    requires SpelledInAnyCase(s, "false")
    ensures Check(Boolean, Str(s)) == Some(Bool(false))
  {
    assert LowerAscii(s) == "false";
  }

  /**
   * Checks one value against a rule, giving the value validation produces:
   * a boolean field also takes the strings `true` and `false` in any letter
   * case and turns them into booleans; every other accepted value is kept.
   */
  function Check(rule: Rule, v: JsValue): Option<JsValue> {
    match rule
    case IntegerAtLeast(min) => if v.Num? && IsSafeInteger(v.n) && min <= v.n then Some(v) else None
    case IntegerBetween(lo, hi) => if v.Num? && IsSafeInteger(v.n) && lo <= v.n <= hi then Some(v) else None
    case NonEmptyString => if v.Str? && v.s != "" then Some(v) else None
    case Boolean =>
      if v.Bool? then Some(v)
      else if v.Str? && LowerAscii(v.s) == "true" then Some(Bool(true))
      else if v.Str? && LowerAscii(v.s) == "false" then Some(Bool(false))
      else None
    case OneOf(options) => if v.Str? && v.s in options then Some(v) else None
  }

  /** The accepted values of each setting, spelled out key by key. */
  predicate Accepted(key: string, v: JsValue) {
    match v
    case Num(n) =>
      IsSafeInteger(n) && (
      || (key == "DEFAULT_PAGE_SIZE" && 1 <= n <= 100)
      || ((key == "CACHE_TTL" || key == "RATE_LIMIT_MAX_REQUESTS") && n >= 1)
      || (key == "RATE_LIMIT_WINDOW_MS" && n >= 1000)
      || (key == "MAX_RETRIES" && n >= 0)
      || (key == "RETRY_DELAY_MS" && n >= 100))
    case Str(s) =>
      || ((key == "DEFAULT_TRADE_SIZES" || key == "DEFAULT_ASSET_TYPE") && s != "")
      || (key == "CACHE_ENABLED" && (LowerAscii(s) == "true" || LowerAscii(s) == "false"))
      || (key == "LOG_LEVEL" && (s == "error" || s == "warn" || s == "info" || s == "debug"))
    case Bool(_) => key == "CACHE_ENABLED"
    case _ => false
  }

  /** The key has a rule in the table and that rule takes `v`. */
  predicate PassesIn(t: Table, key: string, v: JsValue) {
    RuleIn(t, key).Some? && Check(RuleIn(t, key).value, v).Some?
  }

  /** The key is declared and its rule takes `v`. */
  predicate Passes(key: string, v: JsValue) {
    PassesIn(Schema, key, v)
  }

  /** A value the schema's rule for its key takes is one `Accepted` lists. */
  lemma PassingIsAccepted(key: string, v: JsValue)
    requires Passes(key, v)
    ensures Accepted(key, v)
  {
    SchemaKeysDistinct();
    RuleInFinds(Schema, key);
    var j :| 0 <= j < |Schema| && Schema[j].0 == key;
    assert j in {0, 1, 2, 3, 4, 5, 6, 7, 8, 9};
  }

  /** A value `Accepted` lists is one the schema's rule for its key takes. */
  lemma AcceptedPasses(key: string, v: JsValue)
    requires Accepted(key, v)
    ensures Passes(key, v)
  {
    SchemaKeysDistinct();
    RuleInFinds(Schema, key);
    var j :=
      if key == "DEFAULT_PAGE_SIZE" then 0 else if key == "DEFAULT_TRADE_SIZES" then 1
      else if key == "DEFAULT_ASSET_TYPE" then 2 else if key == "CACHE_ENABLED" then 3
      else if key == "CACHE_TTL" then 4 else if key == "RATE_LIMIT_WINDOW_MS" then 5
      else if key == "RATE_LIMIT_MAX_REQUESTS" then 6 else if key == "MAX_RETRIES" then 7
      else if key == "RETRY_DELAY_MS" then 8 else 9;
    assert Schema[j].0 == key;
  }

  /** The schema's rules accept exactly the values `Accepted` lists. */
  lemma RulesMatchAccepted(key: string, v: JsValue)
    ensures Passes(key, v) <==> Accepted(key, v)
  {
    if Passes(key, v) {
      PassingIsAccepted(key, v);
    }
    if Accepted(key, v) {
      AcceptedPasses(key, v);
    }
  }

  /** The value validation produces for an entry (the entry's own value when it is not accepted). */
  function Converted(key: string, v: JsValue): JsValue {
    if Passes(key, v) then Check(RuleOf(key).value, v).value else v
  }

  // ---------------------------------------------------------------------
  // Validation of a request body (line 60)
  // ---------------------------------------------------------------------

  /** Why a body is rejected: a declared key with a bad value, or a key the schema does not allow. */
  datatype ValidationError = Invalid(key: string, value: JsValue) | NotAllowed(key: string)

  datatype Validation = Valid(value: Entries) | Rejected(error: ValidationError)

  /** The first key of the table that the body carries with a value the key's rule refuses. */
  function FirstInvalid(body: Entries, t: Table): Option<ValidationError>
    decreases |t|
  {
    if t == [] then None
    else if HasKey(body, t[0].0) && Check(t[0].1, GetProperty(body, t[0].0)).None? then
      Some(Invalid(t[0].0, GetProperty(body, t[0].0)))
    else FirstInvalid(body, t[1..])
  }

  /** The first key of the body, in body order, that the table does not declare. */
  function FirstUnknown(body: Entries, t: Table): Option<string>
    decreases |body|
  {
    if body == [] then None
    else if RuleIn(t, body[0].0).None? then Some(body[0].0)
    else FirstUnknown(body[1..], t)
  }

  /**
   * `configSchema.validate(body)`: the declared keys are checked in schema
   * order and the first failure is reported; only when they all pass is a
   * key the schema does not declare reported. On success the value is the
   * body with every value converted.
   */
  function Validate(body: Entries): Validation {
    match FirstInvalid(body, Schema)
    case Some(e) => Rejected(e)
    case None =>
      match FirstUnknown(body, Schema)
      case Some(k) => Rejected(NotAllowed(k))
      case None => Valid(seq(|body|, i requires 0 <= i < |body| => (body[i].0, Converted(body[i].0, body[i].1))))
  }

  lemma {:induction false} FirstInvalidNone(body: Entries, t: Table)
    ensures FirstInvalid(body, t).None? <==>
      forall j :: 0 <= j < |t| && HasKey(body, t[j].0) ==> Check(t[j].1, GetProperty(body, t[j].0)).Some?
    decreases |t|
  {
    if t != [] {
      FirstInvalidNone(body, t[1..]);
      assert forall j :: 1 <= j < |t| ==> t[j] == t[1..][j - 1];
    }
  }

  lemma {:induction false} InvalidIsOffending(body: Entries, t: Table)
    ensures FirstInvalid(body, t).Some? ==>
      var e := FirstInvalid(body, t).value;
      e.Invalid? && HasKey(body, e.key) && e.value == GetProperty(body, e.key) &&
      exists j :: 0 <= j < |t| && t[j].0 == e.key && Check(t[j].1, e.value).None?
    decreases |t|
  {
    if t != [] && FirstInvalid(body, t) != FirstInvalid(body, t[1..]) {
      assert t[0].0 == FirstInvalid(body, t).value.key;
    } else if t != [] {
      InvalidIsOffending(body, t[1..]);
      if FirstInvalid(body, t).Some? {
        var e := FirstInvalid(body, t).value;
        var j :| 0 <= j < |t[1..]| && t[1..][j].0 == e.key && Check(t[1..][j].1, e.value).None?;
        assert t[j + 1] == t[1..][j];
      }
    }
  }

  lemma {:induction false} FirstUnknownNone(body: Entries, t: Table)
    ensures FirstUnknown(body, t).None? <==> forall i :: 0 <= i < |body| ==> RuleIn(t, body[i].0).Some?
    decreases |body|
  {
    if body != [] {
      FirstUnknownNone(body[1..], t);
      assert forall i :: 1 <= i < |body| ==> body[i] == body[1..][i - 1];
    }
  }

  lemma {:induction false} UnknownIsInBody(body: Entries, t: Table)
    ensures FirstUnknown(body, t).Some? ==>
      HasKey(body, FirstUnknown(body, t).value) && RuleIn(t, FirstUnknown(body, t).value).None?
    decreases |body|
  {
    if body != [] && RuleIn(t, body[0].0).Some? {
      UnknownIsInBody(body[1..], t);
      if FirstUnknown(body, t).Some? {
        var k := FirstUnknown(body, t).value;
        var i :| 0 <= i < |body[1..]| && body[1..][i].0 == k;
        assert body[i + 1].0 == k;
      }
    }
  }

  /** An entry of a body with distinct keys is what the body's property of that key holds. */
  lemma EntryIsProperty(body: Entries, i: int)
    requires DistinctKeys(body) && 0 <= i < |body|
    ensures HasKey(body, body[i].0) && GetProperty(body, body[i].0) == body[i].1
  {
  }

  /** An entry passing its rule makes the table's check of that key pass. */
  lemma PassingEntryChecks(body: Entries, t: Table, i: int, j: int)
    requires DistinctKeys(body) && DistinctTableKeys(t)
    requires 0 <= i < |body| && 0 <= j < |t| && body[i].0 == t[j].0
    requires PassesIn(t, body[i].0, body[i].1)
    ensures Check(t[j].1, GetProperty(body, t[j].0)).Some?
  {
    EntryIsProperty(body, i);
    RuleInFinds(t, body[i].0);
  }

  /** Every entry passing its rule: no key of the table is refused and no key is undeclared. */
  lemma AllPassingIsValid(body: Entries, t: Table)
    requires DistinctKeys(body) && DistinctTableKeys(t)
    requires forall i :: 0 <= i < |body| ==> PassesIn(t, body[i].0, body[i].1)
    ensures FirstInvalid(body, t).None? && FirstUnknown(body, t).None?
  {
    FirstInvalidNone(body, t);
    FirstUnknownNone(body, t);
    forall j | 0 <= j < |t| && HasKey(body, t[j].0)
      ensures Check(t[j].1, GetProperty(body, t[j].0)).Some?
    {
      var i :| 0 <= i < |body| && body[i].0 == t[j].0;
      PassingEntryChecks(body, t, i, j);
    }
  }

  /** When no key of the table is refused, an entry of the body with a rule passes it. */
  lemma DeclaredEntryPasses(body: Entries, t: Table, i: int)
    requires DistinctKeys(body) && DistinctTableKeys(t)
    requires 0 <= i < |body| && RuleIn(t, body[i].0).Some?
    requires FirstInvalid(body, t).None?
    ensures PassesIn(t, body[i].0, body[i].1)
  {
    FirstInvalidNone(body, t);
    RuleInFinds(t, body[i].0);
    var j :| 0 <= j < |t| && t[j].0 == body[i].0;
    EntryIsProperty(body, i);
    assert Check(t[j].1, GetProperty(body, t[j].0)).Some?;
  }

  /** A body is valid exactly when each of its entries passes its rule. */
  lemma ValidateIsAllPassing(body: Entries)
    requires DistinctKeys(body)
    ensures Validate(body).Valid? <==> forall i :: 0 <= i < |body| ==> Passes(body[i].0, body[i].1)
  {
    SchemaKeysDistinct();
    if forall i :: 0 <= i < |body| ==> Passes(body[i].0, body[i].1) {
      AllPassingIsValid(body, Schema);
    }
    InvalidIsOffending(body, Schema);
    if Validate(body).Valid? {
      FirstUnknownNone(body, Schema);
      forall i | 0 <= i < |body| ensures Passes(body[i].0, body[i].1) {
        DeclaredEntryPasses(body, Schema, i);
      }
    }
  }

  /**
   * A body is accepted exactly when every one of its entries is an accepted
   * setting; the validated value then has the body's keys in the body's
   * order, each with its converted value.
   */
  lemma ValidateAcceptsExactly(body: Entries)
    requires DistinctKeys(body)
    ensures Validate(body).Valid? <==> forall i :: 0 <= i < |body| ==> Accepted(body[i].0, body[i].1)
    ensures Validate(body).Valid? ==>
      |Validate(body).value| == |body| &&
      forall i :: 0 <= i < |body| ==> Validate(body).value[i] == (body[i].0, Converted(body[i].0, body[i].1))
  {
    ValidateIsAllPassing(body);
    forall i | 0 <= i < |body| ensures Passes(body[i].0, body[i].1) <==> Accepted(body[i].0, body[i].1) {
      RulesMatchAccepted(body[i].0, body[i].1);
    }
    InvalidIsOffending(body, Schema);
  }

  /** A rejection for a value names an entry of the body whose value is not accepted. */
  lemma InvalidRejectionIsOffending(body: Entries)
    ensures Validate(body).Rejected? && Validate(body).error.Invalid? ==>
      var e := Validate(body).error;
      HasKey(body, e.key) && e.value == GetProperty(body, e.key) && !Accepted(e.key, e.value)
  {
    var r := Validate(body);
    if r.Rejected? && r.error.Invalid? {
      InvalidIsOffending(body, Schema);
      SchemaKeysDistinct();
      RuleInFinds(Schema, r.error.key);
      RulesMatchAccepted(r.error.key, r.error.value);
    }
  }

  /**
   * A rejection for a key names a key of the body the schema does not
   * declare, and is only given when every declared key present passes.
   */
  lemma NotAllowedRejectionIsUndeclared(body: Entries)
    requires DistinctKeys(body)
    ensures Validate(body).Rejected? && Validate(body).error.NotAllowed? ==>
      var k := Validate(body).error.key;
      HasKey(body, k) && RuleOf(k).None? &&
      forall i :: 0 <= i < |body| && RuleOf(body[i].0).Some? ==> Accepted(body[i].0, body[i].1)
  {
    var r := Validate(body);
    InvalidIsOffending(body, Schema);
    if r.Rejected? && r.error.NotAllowed? {
      UnknownIsInBody(body, Schema);
      SchemaKeysDistinct();
      forall i | 0 <= i < |body| && RuleOf(body[i].0).Some?
        ensures Accepted(body[i].0, body[i].1)
      {
        DeclaredEntryPasses(body, Schema, i);
        PassingIsAccepted(body[i].0, body[i].1);
      }
    }
  }

  // ---------------------------------------------------------------------
  // Writing the environment (lines 71-73)
  // ---------------------------------------------------------------------

  /** `process.env[key] = value[key].toString()` for each entry, in order. */
  function WriteAll(vars: map<string, string>, value: Entries): map<string, string>
    decreases |value|
  {
    if value == [] then vars
    else
      var last := value[|value| - 1];
      WriteAll(vars, value[..|value| - 1])[last.0 := ToJsString(last.1)]
  }

  /**
   * Writing a value with distinct keys sets exactly its keys, each to its
   * value's string form, and leaves every other variable as it was.
   */
  lemma {:induction false} WriteAllEffect(vars: map<string, string>, value: Entries, k: string)
    requires DistinctKeys(value)
    ensures k in WriteAll(vars, value) <==> k in vars || HasKey(value, k)
    ensures HasKey(value, k) ==> WriteAll(vars, value)[k] == ToJsString(GetProperty(value, k))
    ensures !HasKey(value, k) && k in vars ==> WriteAll(vars, value)[k] == vars[k]
    decreases |value|
  {
    if value != [] {
      var init := value[..|value| - 1];
      var last := value[|value| - 1];
      assert DistinctKeys(init);
      WriteAllEffect(vars, init, k);
      if k == last.0 {
        assert GetProperty(value, k) == last.1;
      } else {
        if HasKey(value, k) {
          var i :| 0 <= i < |value| && value[i].0 == k;
          assert init[i].0 == k;
          assert GetProperty(init, k) == init[i].1 == value[i].1 == GetProperty(value, k);
        }
        if HasKey(init, k) {
          var i :| 0 <= i < |init| && init[i].0 == k;
          assert value[i].0 == k;
        }
      }
    }
  }

  /** Writing a one-entry value sets that one variable. */
  lemma WriteOne(vars: map<string, string>, key: string, v: JsValue)
    ensures WriteAll(vars, [(key, v)]) == vars[key := ToJsString(v)]
  {
    assert [(key, v)][..0] == [];
  }

  /** The process environment. */
  class Environment {
    var vars: map<string, string>

    constructor (vars: map<string, string>)
      ensures this.vars == vars
    {
      this.vars := vars;
    }
  }

  function InDevelopment(vars: map<string, string>): bool {
    EnvGet(vars, "NODE_ENV") == Some("development")
  }

  // ---------------------------------------------------------------------
  // updateConfig (lines 48-82)
  // ---------------------------------------------------------------------

  /** The JSON reply of updateConfig. */
  datatype UpdateReply =
    | Forbidden(message: string)
    | BadRequest(error: ValidationError)
    | Updated(success: bool, message: string, config: Entries)

  function Status(reply: UpdateReply): int {
    match reply
    case Forbidden(_) => 403
    case BadRequest(_) => 400
    case Updated(_, _, _) => 200
  }

  const ForbiddenMessage: string := "Configuration updates are only allowed in development mode"

  /**
   * Outside development the update is refused before the body is looked at;
   * a body validation rejects leaves the environment as it was; otherwise
   * every key of the validated value is written as its string form and the
   * value is echoed back.
   */
  method UpdateConfig(env: Environment, body: Entries) returns (reply: UpdateReply)
    requires DistinctKeys(body)
    modifies env
    ensures !InDevelopment(old(env.vars)) ==>
      reply == Forbidden(ForbiddenMessage) && Status(reply) == 403 && env.vars == old(env.vars)
    ensures InDevelopment(old(env.vars)) && Validate(body).Rejected? ==>
      reply == BadRequest(Validate(body).error) && Status(reply) == 400 && env.vars == old(env.vars)
    ensures InDevelopment(old(env.vars)) && Validate(body).Valid? ==>
      reply == Updated(true, "Configuration updated", Validate(body).value) && Status(reply) == 200 &&
      env.vars == WriteAll(old(env.vars), Validate(body).value)
  {
    if !InDevelopment(env.vars) {
      return Forbidden(ForbiddenMessage);
    }
    var checked := Validate(body);
    if checked.Rejected? {
      return BadRequest(checked.error);
    }
    WriteEnv(env, checked.value);
    reply := Updated(true, "Configuration updated", checked.value);
  }

  /** Lines 71-73: each key of the validated value is written, in order, as its string form. */
  method WriteEnv(env: Environment, value: Entries)
    modifies env
    ensures env.vars == WriteAll(old(env.vars), value)
  {
    for i := 0 to |value|
      invariant env.vars == WriteAll(old(env.vars), value[..i])
    {
      assert value[..i + 1][..i] == value[..i];
      env.vars := env.vars[value[i].0 := ToJsString(value[i].1)];
    }
    assert value[..|value|] == value;
  }

  // ---------------------------------------------------------------------
  // getConfig (lines 22-43) and clearCache (lines 87-91)
  // ---------------------------------------------------------------------

  /** The JSON object getConfig sends; a field that is `undefined` is absent from the JSON. */
  datatype ConfigView = ConfigView(
    defaultPageSize: Option<string>,
    defaultTradeSizes: Option<string>,
    defaultAssetType: Option<string>,
    cacheEnabled: bool,
    cacheTtl: int,
    rateLimitWindowMs: int,
    rateLimitMaxRequests: int,
    maxRetries: int,
    retryDelayMs: int,
    logLevel: string,
    cacheStats: Option<Cache.CacheStats>)

  /** Line 28: the reported flag, true only for the exact string `true`. */
  predicate CacheReportedEnabled(vars: map<string, string>) {
    EnvGet(vars, "CACHE_ENABLED") == Some("true")
  }

  /**
   * The settings as read from the environment now: the numbers are
   * `parseInt(x) || d` (never 0), the flag is on only for `true`, the log
   * level falls back to `info`, and the cache statistics appear only in
   * development. The retry count and delay are the ones the retry loop reads
   * at each call; the cache TTL is not the one the middleware uses, which it
   * read when it was loaded (see `CacheTtlUpdateIsOnlyReported`).
   */
  method GetConfig(env: Environment, store: Cache.ResponseCache) returns (view: ConfigView)
    requires store.Valid()
    ensures view.defaultPageSize == EnvGet(env.vars, "DEFAULT_PAGE_SIZE")
    ensures view.defaultTradeSizes == EnvGet(env.vars, "DEFAULT_TRADE_SIZES")
    ensures view.defaultAssetType == EnvGet(env.vars, "DEFAULT_ASSET_TYPE")
    ensures view.cacheEnabled <==> CacheReportedEnabled(env.vars)
    ensures view.cacheTtl == Cache.DefaultCacheTtl(env.vars)
    ensures view.rateLimitWindowMs == ParseIntOr(EnvGet(env.vars, "RATE_LIMIT_WINDOW_MS"), 60000) != 0
    ensures view.rateLimitMaxRequests == ParseIntOr(EnvGet(env.vars, "RATE_LIMIT_MAX_REQUESTS"), 100) != 0
    ensures view.maxRetries == Scraper.DefaultMaxRetries(env.vars)
    ensures view.retryDelayMs == Scraper.RetryDelayMs(env.vars)
    ensures view.logLevel == (if EnvGet(env.vars, "LOG_LEVEL").Some? && env.vars["LOG_LEVEL"] != "" then env.vars["LOG_LEVEL"] else "info")
    ensures view.cacheStats.Some? <==> InDevelopment(env.vars)
    ensures view.cacheStats.Some? ==>
      view.cacheStats.value.count == |store.entries| && view.cacheStats.value.keys == store.order &&
      forall k :: k in view.cacheStats.value.keys <==> k in store.entries
  {
    var vars := env.vars;
    var logLevel := EnvGet(vars, "LOG_LEVEL");
    var stats: Option<Cache.CacheStats> := None;
    if InDevelopment(vars) {
      var s := Cache.GetCacheStats(store);
      stats := Some(s);
    }
    view := ConfigView(
      EnvGet(vars, "DEFAULT_PAGE_SIZE"),
      EnvGet(vars, "DEFAULT_TRADE_SIZES"),
      EnvGet(vars, "DEFAULT_ASSET_TYPE"),
      EnvGet(vars, "CACHE_ENABLED") == Some("true"),
      ParseIntOr(EnvGet(vars, "CACHE_TTL"), 3600),
      ParseIntOr(EnvGet(vars, "RATE_LIMIT_WINDOW_MS"), 60000),
      ParseIntOr(EnvGet(vars, "RATE_LIMIT_MAX_REQUESTS"), 100),
      ParseIntOr(EnvGet(vars, "MAX_RETRIES"), 3),
      ParseIntOr(EnvGet(vars, "RETRY_DELAY_MS"), 1000),
      if logLevel.Some? && logLevel.value != "" then logLevel.value else "info",
      stats);
  }

  /** `clearCache` handler: empties the shared store and replies with the middleware's result. */
  method ClearCacheHandler(store: Cache.ResponseCache) returns (reply: Cache.ClearResult)
    modifies store
    ensures store.Valid() && store.entries == map[] && store.order == []
    ensures reply == Cache.ClearResult(true, "Cache cleared successfully")
  {
    reply := Cache.ClearCache(store);
  }

  // ---------------------------------------------------------------------
  // How the settings interact
  // ---------------------------------------------------------------------

  /**
   * The cache runs while getConfig reports it off exactly when
   * `CACHE_ENABLED` is neither `true` nor `false` (unset, say) and the
   * request is not a development bypass.
   */
  lemma CacheRunsWhileReportedOff(vars: map<string, string>, req: Cache.Request)
    ensures (!CacheReportedEnabled(vars) && !Cache.Bypass(vars, req)) <==>
      (EnvGet(vars, "CACHE_ENABLED") != Some("true") && EnvGet(vars, "CACHE_ENABLED") != Some("false") &&
       !(req.skipCache == Some("true") && EnvGet(vars, "NODE_ENV") == Some("development")))
  {
  }

  /** Validating a body of one entry: accepted exactly when the entry is, converting its value. */
  lemma ValidateSingle(key: string, v: JsValue)
    ensures Validate([(key, v)]).Valid? <==> Accepted(key, v)
    ensures Accepted(key, v) ==> Validate([(key, v)]) == Valid([(key, Converted(key, v))])
  {
    ValidateAcceptsExactly([(key, v)]);
  }

  /**
   * An accepted update of `CACHE_ENABLED` switches the cache: the value is
   * converted to a boolean, getConfig then reports the cache on exactly for
   * `true`, and every request bypasses it exactly for `false` (or on a
   * development `skipCache`).
   */
  lemma CacheSwitchThroughUpdate(vars: map<string, string>, v: JsValue, req: Cache.Request)
    requires Accepted("CACHE_ENABLED", v)
    ensures Validate([("CACHE_ENABLED", v)]) == Valid([("CACHE_ENABLED", Converted("CACHE_ENABLED", v))])
    ensures Converted("CACHE_ENABLED", v).Bool?
    ensures var c := Converted("CACHE_ENABLED", v);
      var after := WriteAll(vars, [("CACHE_ENABLED", c)]);
      && (CacheReportedEnabled(after) <==> c == Bool(true))
      && (Cache.Bypass(after, req) <==> c == Bool(false) || (req.skipCache == Some("true") && InDevelopment(vars)))
  {
    ValidateSingle("CACHE_ENABLED", v);
    RulesMatchAccepted("CACHE_ENABLED", v);
    SchemaKeysDistinct();
    RuleInFinds(Schema, "CACHE_ENABLED");
    assert Schema[3].0 == "CACHE_ENABLED";
    var c := Converted("CACHE_ENABLED", v);
    assert c.Bool?;
    var after := WriteAll(vars, [("CACHE_ENABLED", c)]);
    WriteOne(vars, "CACHE_ENABLED", c);
    assert EnvGet(after, "NODE_ENV") == EnvGet(vars, "NODE_ENV");
  }

  /**
   * An accepted update of `MAX_RETRIES` to `n` takes effect for a positive
   * `n`; `0` passes validation but the retry loop then falls back to 3.
   */
  lemma MaxRetriesThroughUpdate(vars: map<string, string>, n: int)
    ensures Validate([("MAX_RETRIES", Num(n))]).Valid? <==> 0 <= n <= MaxSafeInteger
    ensures 0 <= n <= MaxSafeInteger ==>
      Validate([("MAX_RETRIES", Num(n))]) == Valid([("MAX_RETRIES", Num(n))]) &&
      Scraper.DefaultMaxRetries(WriteAll(vars, [("MAX_RETRIES", Num(n))])) == if n == 0 then 3 else n
  {
    ValidateSingle("MAX_RETRIES", Num(n));
    SchemaKeysDistinct();
    RuleInFinds(Schema, "MAX_RETRIES");
    assert Schema[7].0 == "MAX_RETRIES";
    var after := WriteAll(vars, [("MAX_RETRIES", Num(n))]);
    WriteOne(vars, "MAX_RETRIES", Num(n));
    if n == 0 {
      ParseIntOrOfZero(3);
      assert IntToString(0) == "0";
    } else {
      ParseIntOrOfNonZero(n, 3);
    }
  }

  /**
   * An accepted update of `CACHE_TTL` to `n` is written as the numeral of
   * `n`, so getConfig reports `n` afterwards. The TTL the cached routes store
   * with is `Cache.DefaultCacheTtl(loadEnv)`, fixed when the middleware was
   * loaded (`Cache.CacheRoute`), so the update does not reach them.
   */
  lemma CacheTtlUpdateIsOnlyReported(vars: map<string, string>, n: int)
    requires 1 <= n <= MaxSafeInteger
    ensures Validate([("CACHE_TTL", Num(n))]) == Valid([("CACHE_TTL", Num(n))])
    ensures var after := WriteAll(vars, [("CACHE_TTL", Num(n))]);
      after["CACHE_TTL"] == IntToString(n) && Cache.DefaultCacheTtl(after) == n
  {
    ValidateSingle("CACHE_TTL", Num(n));
    SchemaKeysDistinct();
    RuleInFinds(Schema, "CACHE_TTL");
    assert Schema[4].0 == "CACHE_TTL";
    WriteOne(vars, "CACHE_TTL", Num(n));
    ParseIntOrOfNonZero(n, 3600);
  }
}
