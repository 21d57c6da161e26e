# Capitol Trades scraper: cache, acquisition and configuration core

A Dafny model of the three pieces of logic behind the scraper's HTTP API:

- **The response cache middleware** (`src/middleware/cache.js`), in module `Cache`.
  - The `memory-cache` store is a class `ResponseCache`. It holds a map from key to (body, expiry time) and the keys in insertion order, read against an explicit clock.
  - The middleware either calls `next`, answers from the store, or wraps `res.send` so that a later 2xx body is stored for `ttl * 1000` ms.
  - `clearCache` empties the store and `getCacheStats` reads it.
- **The acquisition service** (`src/services/scraper.service.js`), in module `Scraper`.
  - The request-blocking rule of `getPage`.
  - `withRetry`, as a loop proved against a specification function `RetrySpec`.
  - `buildUrl`, whose query is an ordered list of pairs.
  - Row-to-record extraction, where a row is a map from `data-th` label to cell text.
  - The lazily launched browser slot (`initBrowser`).
  - `getAllTrades`, one attempt at a time with its page release, and the three selector wrappers that change the caller's filter object in place.
  - The browser is not modelled. What each call into it does on each attempt is an input (`AttemptScript`).
- **The configuration controller** (`src/controllers/config.controller.js`), in module `Config`.
  - The Joi schema is an ordered table of rules, and `Validate` checks a body against it.
  - `updateConfig` is the development gate, then validation, then writing the environment variables.
  - `getConfig` applies the `parseInt(x) || d` defaults, and reports the cache stats only in development.
  - `clearCache` delegates to the middleware.
- **Shared JavaScript semantics**, in module `Js`: truthiness, `String(v)`, `parseInt`, `trim`, `process.env` reads, and plain objects as ordered entries.

On these points the model follows the code:
- The cache key is the raw request URL. Two requests whose query parameters are in a different order use different entries.
- `withRetry` with a bound of 0 or less makes no call at all and throws `undefined`.
- `withRetry` waits after every failure, the last one included.
- Each attempt of `getAllTrades` opens and releases its own page.
- As written, a page whose setup throws inside `getPage` is never closed. The model records that behaviour, but its methods implement the corrected `getPage`, which closes the page before rethrowing (see Findings).

## Model

| member | source | states |
|---|---|---|
| Js.ParseIntOr | src/controllers/config.controller.js:29-33 | `parseInt(x) \|\| d` with a non-zero default never yields 0 |
| Js.Truthy | src/middleware/cache.js:27 | ToBoolean: `undefined`, `null`, `false`, `0` and `''` are falsy and everything else is truthy; what it decides is stated by `Cache.CacheMiddleware` and `Scraper.QueryOmitsFalsyEntry` |
| Js.IntToString | src/controllers/config.controller.js:72 | `String(n)` for an integer: a minus sign for a negative number, then `NatToString`; `ParseIntOfIntToString` is its inverse |
| Js.ToJsString | src/controllers/config.controller.js:72 | `String(v)` / `v.toString()` for each kind of value: `true`/`false`, the numeral, or the string itself |
| Js.ParseInt | src/controllers/config.controller.js:29-33 | `parseInt(s)`: skips leading whitespace, reads an optional sign and then `ParseMagnitude`; `ParseIntOfIntToString` and `ParseIntOrFallsBack` state what it gives |
| Js.ParseMagnitude | src/controllers/config.controller.js:29-33 | the unsigned part of `parseInt`: an optional `0x` prefix, then the longest run of digits of that radix, or NaN when there is none; `ParseMagnitudeOfDigits` states its value on a numeral |
| Js.IsWhitespace | src/services/scraper.service.js:85-91 | the ECMAScript WhiteSpace and LineTerminator code points that `trim` removes; `SignsAndDigitsAreNotBlank` excludes signs and digits |
| Js.SignsAndDigitsAreNotBlank | src/controllers/config.controller.js:29-33 | no character between `-` and `9` is whitespace, so `parseInt` starts reading at a sign or digit |
| Js.ParseIntOfIntToString | src/controllers/config.controller.js:72 | `parseInt(String(n)) == n` for every integer: a number written to the environment reads back as itself |
| Js.ParseIntOrOfNonZero | src/controllers/config.controller.js:29-33 | a non-zero integer stored as its string survives `parseInt(...) \|\| d` |
| Js.ParseIntOrOfZero | src/controllers/config.controller.js:32 | `"0"` parses to the falsy 0, so the default is used instead |
| Js.ParseIntOrFallsBack | src/services/scraper.service.js:59 | an unset or non-numeric variable gives the default |
| Js.ParseMagnitudeOfDigits | src/services/scraper.service.js:59 | a non-empty run of decimal digits is read whole as its value |
| Js.DigitsValueOfNatToString | src/controllers/config.controller.js:72 | the digits of `String(n)` denote `n` |
| Js.NatToString | src/controllers/config.controller.js:72 | the numeral of a natural number is a non-empty string of decimal digits |
| Js.Trim | src/services/scraper.service.js:85-91 | the trimmed text neither starts nor ends with whitespace and is no longer than the original |
| Js.TrimIsInfix | src/services/scraper.service.js:85-91 | the trimmed text is a contiguous part of the cell text, starting after the leading whitespace |
| Js.TrimDropsOnlyWhitespace | src/services/scraper.service.js:85-91 | everything `trim` removes before and after the kept text is whitespace |
| Js.TrimIdempotent | src/services/scraper.service.js:85-91 | trimming twice is trimming once |
| Js.GetProperty | src/services/scraper.service.js:126-127 | reading a missing property gives `undefined`, and a present one gives its value |
| Js.SetProperty | src/services/scraper.service.js:140 | assignment replaces the value of an existing key in place, or appends a new key at the end, and leaves every other entry as it was |
| Js.SetThenGet | src/services/scraper.service.js:140-141 | after `obj[key] = v`, reading `obj[key]` gives `v` and the keys stay distinct |
| Cache.DefaultCacheTtl | src/middleware/cache.js:5 | the default TTL is never 0, and it is 3600 when `CACHE_TTL` is unset |
| Cache.Lookup | src/middleware/cache.js:25 | `cache.get(key)` at time `now`: the stored body while it has not expired, otherwise nothing; `LookupAfterPut` states it against `PutEntry` |
| Cache.PutEntry | src/middleware/cache.js:40 | `cache.put(key, body, ttlMs)` at time `now`: the entry is stored with expiry `now + ttlMs`; `LookupAfterPut` states what a later lookup sees |
| Cache.Bypass | src/middleware/cache.js:15-18 | the skip condition: `CACHE_ENABLED` exactly `'false'`, or `skipCache === 'true'` in development; `CacheConsultedUnlessSwitchedOff` states its negation |
| Cache.CacheKey | src/middleware/cache.js:24 | the prefix followed by `originalUrl \|\| url`; `CacheKeyInjective` states that it separates requests exactly by URL |
| Cache.CacheRoute | src/middleware/cache.js:5-12 | a route mounted with `cache()` runs the middleware with the TTL read from the environment at load: a miss installs the hook with `DefaultCacheTtl(loadEnv)`, whatever the environment holds now, and delivers nothing; the status is unchanged; bypass and hit as in `CacheMiddleware` |
| Cache.LookupAfterPut | src/middleware/cache.js:40 | a stored body is served until `now + ttlMs` and not after; other keys are untouched |
| Cache.CacheKeyInjective | src/middleware/cache.js:24 | two requests share a key exactly when their URLs (`originalUrl \|\| url`) are equal |
| Cache.CacheConsultedUnlessSwitchedOff | src/middleware/cache.js:15-18 | only the exact string `'false'`, or `skipCache=true` in development, bypasses the cache |
| Cache.ResponseCache.constructor | src/middleware/cache.js:1 | the store starts empty |
| Cache.ResponseCache.Put | src/middleware/cache.js:40 | inserts or replaces the entry with a fresh expiry, and appends a new key to the key order; the store invariant is kept |
| Cache.ResponseCache.Clear | src/middleware/cache.js:56 | the store has no entries and no keys |
| Cache.GetCacheStats | src/middleware/cache.js:63-70 | `count == keys.length ==` the number of stored entries; the keys are the stored ones in insertion order, without repeats; the store is not changed |
| Cache.ClearCache | src/middleware/cache.js:54-58 | the store is emptied, and the result is the constant success reply |
| Cache.Response.Send | src/middleware/cache.js:36-45 | the wrapped send stores the body under the hook's key for `ttl * 1000` ms only when the status is 2xx, adding a new key at the end of the key order; it leaves the store unchanged otherwise, and delivers the same body exactly once |
| Cache.CacheMiddleware | src/middleware/cache.js:13-48 | a bypass calls `next` and touches nothing; a truthy cached body is sent as it is without `next`; otherwise `send` is wrapped with the key and TTL and `next` is called; the store is never written here |
| Cache.StoredResponseServedUntilExpiry | src/middleware/cache.js:25-40 | a truthy 2xx body stored by the wrapped send answers the next request for the same URL exactly until `ttl` seconds have passed |
| Scraper.Intercept | src/services/scraper.service.js:45-51 | a request is aborted exactly when its type is image, stylesheet or font, and continued exactly otherwise |
| Scraper.QueryPair | src/services/scraper.service.js:106 | the pair one filter entry adds: its key and `String(value)` when the value is truthy, nothing otherwise; `QueryOmitsFalsyEntry` and `QueryKeepsTruthyEntry` state it in place |
| Scraper.Cell | src/services/scraper.service.js:85-91 | the trimmed text of the cell with a label, or absent when there is none; `TradeFieldsFromCells` states it per field |
| Scraper.TradeOf | src/services/scraper.service.js:84-92 | the record of a row, built from the cells of the seven labels; `FieldsAreCells` and `MissingCellBlanksOnlyItsField` state it |
| Scraper.GetPageWith | src/services/scraper.service.js:35-54 | `getPage` as written (`false`: a page whose setup throws is left open) and corrected (`true`: that page is closed before the error propagates); `AsWrittenSetupFailureLeaksPage` and `GetPageReleasesOnFailure` state the two |
| Scraper.RunAttemptWith | src/services/scraper.service.js:115-133 | the function handed to `withRetry`, on top of either `getPage`: get a page, navigate to the built URL, read the rows, shape `{page, limit, trades}`, close in `finally`, with an error from `close` replacing the result |
| Scraper.RunAttempt | src/services/scraper.service.js:115-133 | the attempt on the corrected `getPage`; `AttemptContract` states it |
| Scraper.RetryFrom | src/services/scraper.service.js:114-134 | the `withRetry` loop of `getAllTrades` from turn `i` on, with the browser slot carried from attempt to attempt; `RetryFromFollowsSpec` ties it to `RetrySpec` |
| Scraper.FirstSuccess | src/services/scraper.service.js:62-64 | the index found is the first call that returns; every call before it throws |
| Scraper.RetrySpec | src/services/scraper.service.js:59-73 | at most `maxRetries` calls; a success is the first returning call and has one wait per earlier failure; a failure made every allowed call, waited after each, and carries the last error (`undefined` when no call was made) |
| Scraper.RetryReturnsFirstSuccess | src/services/scraper.service.js:62-64 | an operation that fails `k` times and then returns, with `k < maxRetries`, is called `k + 1` times and its value is returned |
| Scraper.RetryRethrowsLastError | src/services/scraper.service.js:60-72 | an operation that always fails is called exactly `maxRetries` times, and its last error is rethrown |
| Scraper.RetryExhausted | src/services/scraper.service.js:70-72 | the loop's exit state after every allowed call failed is the specified run |
| Scraper.RetryWithoutAttempts | src/services/scraper.service.js:60-72 | a bound of 0 or less makes no call and throws `undefined` |
| Scraper.WithRetry | src/services/scraper.service.js:59-73 | the loop's run is exactly `RetrySpec` |
| Scraper.DefaultMaxRetries | src/services/scraper.service.js:59 | the default bound is never 0, and it is 3 when `MAX_RETRIES` is unset |
| Scraper.RetryDelayMs | src/services/scraper.service.js:68 | the delay is never 0, and it is 1000 ms when `RETRY_DELAY_MS` is unset |
| Scraper.QueryPairs | src/services/scraper.service.js:105-107 | the query has at most one pair per filter entry |
| Scraper.QueryPairsAppend | src/services/scraper.service.js:105-107 | the query of concatenated filters is the concatenation of their queries |
| Scraper.QueryOmitsFalsyEntry | src/services/scraper.service.js:106 | an entry with a falsy value (`0`, `''`, `undefined`, ...) contributes nothing, as if it were absent |
| Scraper.QueryKeepsTruthyEntry | src/services/scraper.service.js:106 | an entry with a truthy value contributes exactly its own pair, between the pairs of the entries before and after it |
| Scraper.BuildUrl | src/services/scraper.service.js:103-109 | the loop builds exactly the base URL with `QueryPairs(filters)` |
| Scraper.SelectorAppendsOnePair | src/services/scraper.service.js:139-158 | setting a new truthy selector adds exactly one pair at the end of the query, so two selectors on the same filters differ only in that pair |
| Scraper.FilterObject.Set | src/services/scraper.service.js:140 | `filters[key] = value` changes the caller's object to `SetProperty` of its old entries |
| Scraper.FieldsAreCells | src/services/scraper.service.js:84-92 | the record's seven fields are the cells under the seven labels, in order |
| Scraper.TradeFieldsFromCells | src/services/scraper.service.js:84-92 | a field is absent exactly when its labelled cell is missing; otherwise it is the cell's trimmed text, with no whitespace at either end |
| Scraper.MissingCellBlanksOnlyItsField | src/services/scraper.service.js:84-92 | a row that lacks one labelled cell gives the same record except that this field is absent |
| Scraper.ExtractTradeData | src/services/scraper.service.js:78-98 | one record per row, in document order, each the record of its row |
| Scraper.SlotAfterLaunch | src/services/scraper.service.js:13-30 | a set browser slot is kept; an empty one is filled exactly when the launch returns |
| Scraper.AsWrittenSetupFailureLeaksPage | src/services/scraper.service.js:35-54 | as written, a page whose setup throws is opened and never closed |
| Scraper.GetPageReleasesOnFailure | src/services/scraper.service.js:35-54 | corrected, a page `getPage` opens and does not return has been closed exactly once, and a returned page is still open |
| Scraper.AttemptContract | src/services/scraper.service.js:114-133 | corrected, each attempt closes the page it opened exactly once; it launches only while the slot is empty; on success it navigated to the built URL and returns `{page, limit}` from the filters with one record per row |
| Scraper.LaunchedBrowserIsKept | src/services/scraper.service.js:13-30 | once a launch has returned, every later attempt uses that same browser |
| Scraper.RetryFromFollowsSpec | src/services/scraper.service.js:114-133 | the attempt-by-attempt loop of `getAllTrades` from any turn on agrees with `RetrySpec` over its attempts, and leaves the slot as those attempts left it |
| Scraper.RetryFromIsRetrySpec | src/services/scraper.service.js:114-133 | the whole loop of `getAllTrades` is the specified retry run over its attempts |
| Scraper.Page.Close | src/services/scraper.service.js:131 | closing a page counts one more close |
| Scraper.Scraper.InitBrowser | src/services/scraper.service.js:13-30 | launches only while the slot is empty; a failed launch leaves the slot empty and rethrows; a set slot is returned as it is |
| Scraper.Scraper.GetPage | src/services/scraper.service.js:35-54 | agrees with the corrected `getPage`: the browser slot, the result, and a page that was opened and closed exactly when setup failed |
| Scraper.Scraper.Attempt | src/services/scraper.service.js:115-133 | one attempt's outcome, slot and navigated URL (the built URL, once a page was obtained) are those of `RunAttempt`, and the page it opened was closed as many times as that run says |
| Scraper.Scraper.RetryAttempts | src/services/scraper.service.js:115-133 | the loop's run and slot are those of `RetryFrom`, and every page opened along the way was closed exactly once |
| Scraper.Scraper.GetAllTrades | src/services/scraper.service.js:114-134 | the run is `RetrySpec` over the attempts with the default bound from the environment, and every page opened was closed exactly once |
| Scraper.Scraper.GetTradesBySize | src/services/scraper.service.js:139-142 | sets `size` on the caller's filters, then runs `getAllTrades` with them |
| Scraper.Scraper.GetTradesByPolitician | src/services/scraper.service.js:147-150 | sets `politician` on the caller's filters, then runs `getAllTrades` with them |
| Scraper.Scraper.GetTradesByTicker | src/services/scraper.service.js:155-158 | sets `ticker` on the caller's filters, then runs `getAllTrades` with them |
| Config.RuleInFinds | src/controllers/config.controller.js:6-17 | in a schema with distinct keys, a key has a rule exactly when it is declared, and it is the declared rule |
| Config.Check | src/controllers/config.controller.js:7-16 | one Joi rule on one value: a safe integer within the rule's bounds, a non-empty string, a boolean or a `true`/`false` string in any case (converted to a boolean), or one of the listed strings; `RulesMatchAccepted` ties it to `Accepted` |
| Config.Accepted | src/controllers/config.controller.js:6-17 | the accepted values of each setting, written out key by key as an independent reference for the schema |
| Config.Validate | src/controllers/config.controller.js:60 | `configSchema.validate(body)`: declared keys in schema order with the first refusal reported, then the first undeclared key; on success the body with converted values; `ValidateIsAllPassing` and `ValidateAcceptsExactly` state what it accepts |
| Config.WriteAll | src/controllers/config.controller.js:71-73 | `process.env[key] = value[key].toString()` for each entry in order; `WriteAllEffect` states the resulting environment |
| Config.SchemaKeysDistinct | src/controllers/config.controller.js:6-17 | the ten declared settings have distinct names |
| Config.LowerAscii | src/controllers/config.controller.js:10 | case folding keeps the length, turns each upper-case ASCII letter into the same letter in lower case, leaves no upper-case ASCII letter, and keeps every other character |
| Config.BooleanTakesTrueInAnyCase | src/controllers/config.controller.js:10 | every spelling of `true` in any letter case (`'TRUE'`, `'True'`, ...) is accepted for `CACHE_ENABLED` and becomes `true` |
| Config.BooleanTakesFalseInAnyCase | src/controllers/config.controller.js:10 | every spelling of `false` in any letter case (`'FALSE'`, `'False'`, ...) is accepted for `CACHE_ENABLED` and becomes `false` |
| Config.PassingIsAccepted | src/controllers/config.controller.js:6-17 | a value the schema's rule for its key takes is in that key's accepted range |
| Config.AcceptedPasses | src/controllers/config.controller.js:6-17 | a value in a key's accepted range passes the schema's rule for that key |
| Config.RulesMatchAccepted | src/controllers/config.controller.js:6-17 | the schema accepts exactly: safe integers only (within ±`Number.MAX_SAFE_INTEGER`) with page size 1..100, TTL ≥ 1, window ≥ 1000, max requests ≥ 1, retries ≥ 0 and delay ≥ 100; non-empty strings; booleans or `true`/`false` strings; and log levels error/warn/info/debug |
| Config.FirstInvalidNone | src/controllers/config.controller.js:60 | no declared setting is rejected exactly when every declared setting present in the body passes its rule |
| Config.InvalidIsOffending | src/controllers/config.controller.js:60 | a value rejection names a body entry whose value its declared rule refuses |
| Config.FirstUnknownNone | src/controllers/config.controller.js:60 | no key is reported as not allowed exactly when every key of the body is declared |
| Config.UnknownIsInBody | src/controllers/config.controller.js:60 | a key reported as not allowed is a key of the body that the schema does not declare |
| Config.ValidateIsAllPassing | src/controllers/config.controller.js:60-61 | a body validates exactly when each of its entries passes its rule |
| Config.ValidateAcceptsExactly | src/controllers/config.controller.js:6-17 | a body validates exactly when every entry is in its key's accepted range, and the validated value is the body with booleans converted |
| Config.InvalidRejectionIsOffending | src/controllers/config.controller.js:60-68 | a rejection for a value names an entry of the body whose value is out of range |
| Config.NotAllowedRejectionIsUndeclared | src/controllers/config.controller.js:60-68 | a rejection for an unknown key names a key of the body that is not declared, and then every declared entry was in range |
| Config.WriteAllEffect | src/controllers/config.controller.js:71-73 | after the writes, exactly the value's keys are set, each to its value's string form, and every other variable is unchanged |
| Config.WriteOne | src/controllers/config.controller.js:72 | writing a one-entry value sets that one variable to its string form |
| Config.UpdateConfig | src/controllers/config.controller.js:48-82 | outside development: 403, environment unchanged, before any validation; a rejected body: 400 with the error, environment unchanged; otherwise: every validated key is written as a string, and the reply is `{success: true, message, config: value}` with status 200 |
| Config.WriteEnv | src/controllers/config.controller.js:71-73 | the loop leaves the environment equal to the writes of every entry in order |
| Config.GetConfig | src/controllers/config.controller.js:22-43 | three raw variables; the cache flag true only for the exact string `'true'`; numbers defaulting to 3600, 60000, 100, 3 and 1000, never 0; the log level defaulting to `info`; cache stats present exactly in development, with the store's count and keys |
| Config.ClearCacheHandler | src/controllers/config.controller.js:87-91 | empties the store and replies with the middleware's success result |
| Config.CacheRunsWhileReportedOff | src/controllers/config.controller.js:28 | the cache runs while it is reported off exactly when `CACHE_ENABLED` is neither `'true'` nor `'false'` (unset, say) and the request is not a development bypass |
| Config.ValidateSingle | src/controllers/config.controller.js:60 | a one-entry body validates exactly when its entry is in range, to its converted value |
| Config.CacheSwitchThroughUpdate | src/controllers/config.controller.js:10 | an accepted `CACHE_ENABLED` is converted to a boolean; once it is written, the cache is reported on exactly for `true` and bypassed exactly for `false` (or a development `skipCache`) |
| Config.MaxRetriesThroughUpdate | src/controllers/config.controller.js:14 | `MAX_RETRIES = n` validates exactly when `0 <= n <= Number.MAX_SAFE_INTEGER`; once written, the retry bound is `n`, except that `0` becomes 3 |
| Config.CacheTtlUpdateIsOnlyReported | src/controllers/config.controller.js:29 | an accepted `CACHE_TTL = n` is written as the numeral of `n`, so getConfig reports `n` afterwards; the routes keep storing with the load-time TTL that `Cache.CacheRoute` states |

## Left out

- Puppeteer is not modelled (launch, `newPage`, `setViewport`, `setUserAgent`, `goto`, `waitForSelector`, `page.evaluate`). Their outcomes are inputs to each attempt, and a browser is only an identifier.
- Scraper.Scraper.InitBrowser: the check of the slot, the awaited launch and the store into the slot (src/services/scraper.service.js:14-16) run as one step here. In the source, two first requests that overlap can both see an empty slot and both launch a browser; the later store overwrites the earlier one, whose browser is then never closed. The model does not capture that race, so its single-browser guarantee holds only for requests that do not overlap.
- Timers and async scheduling are not modelled. A retry delay is a count of waits; `RetryDelayMs` gives its length, but time is not modelled.
- The process `exit` hook that closes the browser (src/services/scraper.service.js:161-165) is left out, because it runs outside any request.
- `memory-cache` is outside this repository. The store is modelled as a TTL map over an explicit clock: an entry is served while `now <= expiry`, and `keys()` reports insertion order. The library's background sweep of expired keys is not modelled, so `keys()` may still list expired entries.
- The `size` field of `getCacheStats` (the length of `JSON.stringify(cache.exportJson())`) is left out.
- Logger calls are left out.
- Express responses are modelled only where the logic uses them: the status code, the body passed to `send`, and the reply shape of the controller.
- URL percent-encoding and `URL.toString()` are left out. A URL is the base plus its ordered list of query pairs.
- Request-handler wiring and the Winston logger are not part of this model: `src/routes`, `src/index.js` (helmet, cors, rate limiter, `listen`), `src/utils/logger.js` and `src/controllers/trade.controller.js`.
- Config.Validate does not model Joi's conversion of numeric strings to numbers, or non-integer numbers. A number setting accepts only a JSON integer in this model. Numbers are `Num(int)` throughout. The safe-integer bound of Joi's `number()` is modelled.
- Config.GetConfig reports `RATE_LIMIT_WINDOW_MS` and `RATE_LIMIT_MAX_REQUESTS` from the current environment. The rate limiter reads them once at startup in `src/index.js`, which is not part of this model, so an update changes only what is reported.
- Config.UpdateConfig carries the first validation error as a structured value (`Invalid(key, value)` or `NotAllowed(key)`), not Joi's message text.
- Config.UpdateConfig requires a body whose keys are distinct, because a parsed JSON object cannot repeat a key. Non-object bodies (arrays, `null`, primitives) are not modelled.
- Config.Validate checks the declared keys in schema order and reports unknown keys only after every declared key passed. This is one consistent reading of Joi's `abortEarly` order; Joi's internal ordering is not part of this model.
- Scraper.ExtractTradeData: the DOM query is abstracted. A row is a map from `data-th` label to the text of the first cell with that label, so nested or duplicate cells are not modelled.
- Scraper.Scraper.GetPage, Scraper.Scraper.Attempt, Scraper.Scraper.RetryAttempts, Scraper.Scraper.GetAllTrades and the three selector wrappers implement the corrected `getPage`, which closes a page whose setup throws. Their promise that every page opened was closed exactly once holds only for that corrected `getPage`. The as-written behaviour is `GetPageWith(..., false)`, which leaks the page (see Findings).
- Scraper.AttemptContract, Scraper.RunAttempt, Scraper.RetryFrom, Scraper.RetryFromFollowsSpec and Scraper.RetryFromIsRetrySpec describe attempts on the corrected `getPage` too: their "closed exactly once" does not hold of the code as written, whose attempt is `RunAttemptWith(..., false)` and leaves the page open when its setup throws.
- Scraper.WithRetry assumes every thrown value is an object. The catch block reads `error.message` for the log line, so a thrown `undefined` or `null` would raise a `TypeError` there and leave the loop after one call, with no wait. Every error in `getAllTrades` comes from the browser and is an `Error`.
- Scraper.Scraper.GetAllTrades and the selector wrappers return the run with the ghost list of pages opened. A page's only state is its close count; an error thrown by `page.close` replaces the attempt's result.

## Findings

| source | as written | input that shows it | evidently intended | confidence | as-written member | corrected member |
|---|---|---|---|---|---|---|
| src/services/scraper.service.js:35-54, 116-132 | `getPage` opens a page and then sets its viewport, user agent and request interception outside any `try`. The `try/finally` that closes the page in `getAllTrades` only starts once `getPage` has returned. | an attempt where `newPage` returns and `setViewport` throws: the page is opened, the error reaches `withRetry`, and the page is never closed; every retry can leak another one | a page that `getPage` opens and does not hand back is closed before the error propagates | medium (not executed) | Scraper.AsWrittenSetupFailureLeaksPage | Scraper.GetPageReleasesOnFailure |
