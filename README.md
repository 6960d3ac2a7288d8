# avocavo CLI credential store and API client core, in Dafny

This project models the part of the avocavo nutrition command-line client that
holds credentials and reshapes server answers.

**`AuthManager`** (lib/auth.js) is modelled as the class `Auth.AuthManager`. Its
persisted store is held in fields:

- `apiKeys` is an insertion-ordered map from keyId to a record `{key, userInfo,
  loginTime, provider, nickname}`. It is a `seq<Entry>` with distinct ids, and
  an assignment to an existing id replaces that entry where it stands.
- `activeKey` is the optional id of the key in use.
- The legacy single-slot fields `apiKey`, `userInfo`, `loginTime` and `provider`
  mirror the latest OAuth login.

The OAuth flow is modelled as follows:

- `login` sends one initiation request. The model takes that reply as the input
  `LoginInit`.
- `pollForCompletion` is a `while` loop. The k-th status query is answered by
  `answer(k)`. The loop is the method `Polling.AwaitStatus`. It is proved
  against the function `Polling.Poll` (with `Polling.PollFrom`, the loop from
  its k-th query on), and `Polling.PollShape` characterises every possible run
  of it.
- `generateKeyId` is `KeyIds.GenerateKeyId`. The keyId of `addManualKey` is
  `KeyIds.ManualKeyId`, built on the nickname slug `KeyIds.Slug`.
- `keys[id] = record` is `KeyStore.Upsert`, `delete keys[id]` is
  `KeyStore.Delete`, and the own-key read `keys[id]` is `KeyStore.Find`.
- The `completed` branch upserts the record under a synthesised keyId, makes it
  active and mirrors it into the legacy fields (`Auth.LoginWrites`).

The key-management operations are `setActiveKey`, `addManualKey`, `removeKey`,
`getKeyInfo` and `logout`. They keep two invariants: keyIds stay distinct, and
the active id names a stored record. `isLoggedIn`, `getApiKey` and
`validateApiKey` are functions over the fields. `getUserInfo`, `getAllKeys`,
`getActiveKeyId` and `getLoginInfo` are plain field reads.

The key lookups of `getKeyInfo`, `setActiveKey` and `removeKey` read
`keys[keyId]` on a plain object. That read also finds the members every object
inherits from Object.prototype. `Auth.AuthManager` looks up stored ids only.
The module `PrototypeLookup` keeps the three lookups as written and proves
where they differ (see "## Findings").

**`NutritionAPI`** (lib/api.js) is pure apart from the network. It is modelled
by four pieces:

- the settings its constructor computes (`Api.NewClient`);
- the response interceptor that turns every failed request into an `ApiError`
  (`Api.InterceptError`);
- the two reshaping functions `getAccountUsage` and `formatHealthFromDashboard`.

The clock (`Date.now()`, `new Date().toISOString()`) and every network reply
are parameters.

JavaScript truthiness is modelled explicitly:

- A string is truthy when it is present and non-empty.
- A number is truthy when it is present and non-zero.
- `a || b` is `OrElse`, `IntOr` or `RealOr`.

`${n}` is `NatToString`, and `toLowerCase` is ASCII `Lower`.

## Model

| member | source | states |
|---|---|---|
| JsText.NatToString | lib/auth.js:212 | the decimal text `${n}` of a non-negative integer is a non-empty string of digits |
| JsText.NatToStringRoundTrip | lib/auth.js:212 | the decimal text `${n}` of a non-negative integer parses back to `n` |
| JsText.LowerSpec | lib/auth.js:212 | `toLowerCase` keeps the length and lowers each character on its own |
| JsText.LowerFixes | lib/auth.js:212 | a string without upper-case letters is its own lower case |
| JsText.LowerConcat | lib/auth.js:212 | lowering distributes over concatenation |
| JsText.LowerIdempotent | lib/auth.js:212 | lowering twice is lowering once |
| JsText.BeforeFirst | lib/auth.js:211 | `split(sep)[0]` is a prefix without `sep`, and is followed by `sep` whenever it is shorter than the input |
| JsText.AfterLastDashOfJoin | lib/auth.js:212 | the segment after the last '-' of `a + "-" + d` is `d` when `d` has no '-' |
| JsText.StripTrailingSlash | lib/api.js:16 | `replace(/\/$/, '')` removes exactly one trailing '/' and otherwise leaves the URL unchanged |
| JsText.StripTrailingSlashInverse | lib/auth.js:9 | stripping undoes appending one '/' |
| JsText.StripTrailingSlashOnce | lib/auth.js:9 | of two trailing slashes only one is removed |
| KeyStore.Find | lib/auth.js:272-275 | own-key lookup: a record is found exactly when its id is stored |
| KeyStore.FindStored | lib/auth.js:272-275 | a found record is the one stored under that id |
| KeyStore.FindUnique | lib/auth.js:33-34 | with distinct ids, the lookup of the i-th id returns the i-th record |
| KeyStore.FindUpsert | lib/auth.js:110-112 | `keys[id] = record`, which `KeyStore.Upsert` models: afterwards `id` maps to `record`, and every other id maps to what it mapped to before |
| KeyStore.UpsertIds | lib/auth.js:243 | assignment keeps insertion order: existing ids stay in place, and a new id is appended last |
| KeyStore.UpsertUnique | lib/auth.js:243 | assignment keeps keyIds distinct |
| KeyStore.FindDelete | lib/auth.js:255 | `delete keys[id]`, which `KeyStore.Delete` models: afterwards `id` is absent, and every other id maps to what it mapped to before |
| KeyStore.DeleteRemovesOne | lib/auth.js:255 | with distinct ids, deleting the i-th id removes exactly the i-th entry and keeps the rest in order |
| KeyStore.DeleteAbsent | lib/auth.js:255 | deleting an id that is not stored changes nothing |
| KeyStore.DeleteUnique | lib/auth.js:255 | deletion keeps keyIds distinct |
| KeyStore.RemoveKeepsActive | lib/auth.js:258-267 | after a removal the reassigned active id is unset or names a stored record, and never names the removed id |
| KeyStore.UpsertKeepsActive | lib/auth.js:110-113 | writing a record keeps a stored active id stored, and the written id is always a stored active id |
| KeyIds.GenerateKeyIdParts | lib/auth.js:209-213 | the OAuth keyId of `generateKeyId`, which `KeyIds.GenerateKeyId` models, is the lowered provider (default "oauth"), the lowered part of the email before '@' (default "user") and the timestamp, joined by '-' |
| KeyIds.GenerateKeyIdTimestamp | lib/auth.js:209-213 | the creation time can be read back from the OAuth keyId's last segment |
| KeyIds.SlugSpec | lib/auth.js:233 | the nickname slug of `addManualKey`, which `KeyIds.Slug` models, has the nickname's length, and each character is the lowered letter or digit or else '-' |
| KeyIds.SlugIdempotent | lib/auth.js:233 | slugging a slug changes nothing |
| KeyIds.ManualKeyIdShape | lib/auth.js:233 | a manual keyId, as `KeyIds.ManualKeyId` builds it, is "manual-", then the slug of the nickname, then the timestamp, which parses back |
| KeyIds.NoPrototypeNameEndsInDigit | lib/auth.js:225 | no Object.prototype member name ends in a digit, so no timestamped keyId can be one |
| KeyIds.ManualKeyIdProd | lib/auth.js:233 | the nickname "Prod" gives `manual-prod-<now>` |
| KeyIds.GenerateKeyIdIsPlainKey | lib/auth.js:209-213 | an OAuth keyId is never integer-like, so object key order is insertion order, and it never names an Object.prototype member |
| KeyIds.ManualKeyIdIsPlainKey | lib/auth.js:233 | the same holds for manual keyIds |
| Polling.Ending | lib/auth.js:97-140 | a terminal answer never yields a timeout. Only `completed` logs in, only `failed` is a login failure, and only the 404 error is an expired session |
| Polling.AwaitStatus | lib/auth.js:92-151 | the query loop ends exactly as `Poll` says and issues exactly `Poll`'s number of queries, so at most ceil(timeout/interval) of them by `PollShape`. On completion it reports the clock value at which the completing answer arrived |
| Polling.PollShape | lib/auth.js:87-151 | `Polling.Poll`, the poll as a function of the answers (`Polling.PollFrom` is the loop from its k-th query on), issues at most ceil(timeout/interval) queries and every answer before the last is non-terminal. It ends on the first terminal answer, stamped with that query's time, or times out after the whole budget has been queried |
| Polling.PollStopsAtFirstTerminal | lib/auth.js:92-140 | the first terminal answer issued before the deadline decides the outcome and the query count |
| Polling.PollTimesOut | lib/auth.js:92-151 | with no terminal answer the poll times out after exactly ceil(timeout/interval) queries |
| Polling.PollSustainedPending | lib/auth.js:129-133 | timeout 5 and interval 2 with sustained `pending` time out after 3 queries |
| Polling.PollPendingTwiceThenCompleted | lib/auth.js:97-133 | pending, pending, completed: logged in after two intervals, on the third query |
| Polling.PollExpiresOnSecondQuery | lib/auth.js:135-140 | a 404 ends the poll as an expired session, not a timeout |
| Polling.DefaultBudget | lib/auth.js:87 | the defaults (300000 ms, 2000 ms) allow 150 status queries |
| Validation.Validate | lib/auth.js:177-205 | valid exactly on a 200 answer for a truthy key. No key gives "No API key found". Another status gives "Invalid response: HTTP n". A thrown 401 gives "Invalid or expired API key", and any other error gives "Validation failed: " and its message |
| Validation.NoKeyIgnoresReply | lib/auth.js:177-179 | without a key the reply cannot influence the result |
| Validation.ValidMessage | lib/auth.js:189-194 | an accepted key reports email and tier, with "Unknown" for each one missing. A 200 reply without an `account` object reads "Valid - Unknown (Unknown tier)" |
| Validation.InvalidResponseStatus | lib/auth.js:196 | the unexpected status can be read back from the message |
| Auth.LoginWritesSpec | lib/auth.js:100-119 | a completed login stores its record under the synthesised keyId and makes it active. Every other record is untouched, ids stay distinct and the active id is stored |
| Auth.Fresh | lib/auth.js:16-27 | the test `loginTime > Date.now() - 30 days` holds exactly when the secret is non-empty, the login time is present and non-zero, and now is before the login time plus 30 days |
| Auth.FreshEarlier | lib/auth.js:16-27 | a session that is fresh now was fresh at every earlier instant |
| Auth.FreshBoundary | lib/auth.js:25-26 | a login is fresh until 30 days minus 1 ms after it and stale at exactly 30 days |
| Auth.AuthManager.constructor | lib/auth.js:8-9 | opens the store found on disk, and the base URL loses one trailing '/' |
| Auth.AuthManager.IsLoggedIn | lib/auth.js:16-27 | true exactly when the legacy secret is non-empty, the login time is present and non-zero, and now is less than 30 days after it. The key map is never consulted |
| Auth.AuthManager.GetApiKey | lib/auth.js:29-40 | a set active id resolves to its record's key, or to none when the id is dangling, with no fallback. Only when no active id is set is the legacy secret returned |
| Auth.AuthManager.GetKeyInfo | lib/auth.js:272-275 | the own-key lookup: the record stored under the id when it is stored, otherwise none, including for inherited Object.prototype names |
| Auth.AuthManager.SetActiveKey | lib/auth.js:223-230 | succeeds exactly for a stored id and then only makes it the active id; otherwise nothing changes. A stored active id stays stored |
| Auth.AuthManager.AddManualKey | lib/auth.js:232-247 | returns `manual-<slug>-<now>` and stores the manual record under it. The active id and the legacy fields are untouched, and ids stay distinct |
| Auth.AuthManager.RemoveKey | lib/auth.js:249-270 | succeeds exactly for a stored id and removes that one entry, keeping the others' order. If it was active, the active id moves to the first remaining key or is cleared. The legacy secret then becomes the key in use |
| Auth.AuthManager.Logout | lib/auth.js:160-163 | clears the whole store |
| Auth.AuthManager.CompleteLogin | lib/auth.js:97-122 | the `completed` branch leaves exactly the store `LoginWrites` describes, with both invariants |
| Auth.AuthManager.PollForCompletion | lib/auth.js:87-158 | the poll returns true exactly when `Poll` ends logged in. The login is then written, stamped with the time of the completing query. Every other exit leaves the store as it was |
| Auth.AuthManager.Login | lib/auth.js:46-85 | succeeds only when initiation succeeds and the default-parameter poll ends logged in; otherwise the store is unchanged |
| Auth.AuthManager.ValidateApiKey | lib/auth.js:174-206 | validates the explicit key when it is truthy, otherwise the key `getApiKey` returns |
| Api.NewClient | lib/api.js:14-32 | the base URL is the given one (default the production host) with one trailing '/' dropped, as `JsText.StripTrailingSlash` specifies. The timeout defaults to 30000 ms. The Bearer header is set exactly when the key is truthy |
| Api.NewClientSlashInsensitive | lib/api.js:16 | a base URL with or without its trailing '/' gives the same client |
| Api.NewClientDefaults | lib/api.js:14 | without arguments the client targets `https://app.avocavo.app`, unauthenticated |
| Api.InterceptError | lib/api.js:35-63 | every `ApiError` has a non-empty message. Status code and body are kept exactly when a response arrived |
| Api.InterceptClassified | lib/api.js:44-54 | 401, 402, 403, 429 and every status of 500 or more get their fixed messages |
| Api.InterceptIgnoresBody | lib/api.js:42-54 | for those statuses the body's `error` text does not matter |
| Api.InterceptKeepsServerText | lib/api.js:42 | for other statuses a non-empty server `error` text is the message |
| Api.InterceptHttpFallback | lib/api.js:42 | without server text the message is "HTTP n", and n parses back |
| Api.ClassifiedMessagesIdentifyClass | lib/api.js:44-54 | the fixed messages tell the classified statuses apart |
| Api.InterceptWithoutResponse | lib/api.js:57-61 | without a response the error has no status and reads "Connection error. Check your internet connection." or "Request failed: " plus the cause |
| Api.GetAccountUsage | lib/api.js:104-126 | fails only on a null body. Text fields are never empty, `monthly_limit` passes through, and the reset date is set whenever the clock string is |
| Api.AccountUsageFields | lib/api.js:110-121 | each truthy field is kept as sent. A missing or empty email, tier or subscription status becomes "Unknown". A missing or zero current month, remaining, percentage used or days until reset becomes 0. A missing reset date becomes the current time |
| Api.AccountUsageIdempotent | lib/api.js:110-121 | reshaping an already reshaped value returns it unchanged |
| Api.AccountUsageOfEmptyBody | lib/api.js:110-121 | an empty body reshapes to all defaults |
| Api.FormatHealthFromDashboard | lib/api.js:179-207 | the status is always "ok". The version is "dashboard-" followed by the clock string up to its first 'T', that is `split('T')[0]`. A missing or zero user or recipe count is labelled "0 total". The dashboard data echoes the selected overview, which is read from the `data` wrapper when there is one. Active users are non-zero exactly when premium or new users are |
| Api.HealthActivity | lib/api.js:197-198 | active users prefer premium users, then new users, then 0. Calls today are the new-recipe count or 0 |
| Api.HealthUserCount | lib/api.js:190 | the user count parses back from the "<n> total" label |
| Api.HealthWithoutOverview | lib/api.js:181-198 | without an overview everything counts 0 |
| Api.HealthUnwrapsOnce | lib/api.js:180 | with a `data` wrapper the outer overview is ignored, and so is any second wrapper |
| PrototypeLookup.GetKeyInfoAsWritten | lib/auth.js:272-275 | as written, the lookup is null exactly when the id is neither stored nor an inherited Object.prototype name. It returns the record for a stored id and the inherited member otherwise |
| PrototypeLookup.GetKeyInfoAsWrittenInherited | lib/auth.js:274 | `getKeyInfo("toString")` on an empty store returns the inherited member instead of null, and `removeKey("toString")` then succeeds |
| PrototypeLookup.GetKeyInfoAsWrittenAgreesOnPlainIds | lib/auth.js:272-275 | on every other id the code as written returns what the own-key lookup returns |
| PrototypeLookup.SetActiveKeyAsWritten | lib/auth.js:223-230 | as written, the lookup succeeds for stored ids and also for inherited Object.prototype names |
| PrototypeLookup.RemoveKeyAsWritten | lib/auth.js:249-270 | as written, success also covers inherited names, and the id is absent afterwards |
| PrototypeLookup.SetActiveKeyAsWrittenDangles | lib/auth.js:225 | `setActiveKey("constructor")` on an empty store succeeds and leaves an active id that names no record |
| PrototypeLookup.RemoveKeyAsWrittenPhantom | lib/auth.js:251 | `removeKey("toString")` on an empty store succeeds and removes nothing |
| PrototypeLookup.SetActiveKeyAsWrittenBreaksInvariant | lib/auth.js:223-230 | on any store, an inherited name that is not stored breaks the invariant that the active id is stored |
| PrototypeLookup.AsWrittenAgreesOnPlainIds | lib/auth.js:223-270 | on every other id the code as written agrees with the own-key lookup |
| Scenarios.AddThenSwitch | lib/auth.js:223-247 | a key added as "Prod" gets `manual-prod-<now>` and, once switched to, is the key in use |
| Scenarios.RemoveOnlyKey | lib/auth.js:249-270 | removing the only, active key clears the active id, and `getApiKey` falls back to the legacy secret |
| Scenarios.LogoutTwice | lib/auth.js:160-163 | a second logout leaves the empty store empty |
| Scenarios.LoginOnThirdQuery | lib/auth.js:87-133 | a login completing on the third query is stamped two intervals after the start and is fresh then |

## Left out

- Network and UI:
  - The network calls (axios) become input values: `LoginInit`, `answer`, `UserReply`, `HttpFailure` and the response bodies.
  - Opening the browser, ora spinners and console output have no effect on the store and are not modelled.
- `Conf` persistence is not modelled. The store is the object's fields, so file I/O and last-writer-wins between processes are out.
- Time:
  - `async`/`await` and `setTimeout` are not modelled, and requests take no time, so the k-th status query happens exactly `k * interval` after the start.
  - The several `Date.now()` calls inside one operation are collapsed into one `now`.
- Auth.AuthManager.PollForCompletion: requires a positive interval. With interval 0 the source spins on the wall clock until the timeout, which the zero-duration model cannot express.
- Auth.AuthManager.CompleteLogin: a `completed` reply is taken to carry `api_key`, as a string or as `null`, and a missing field is read as `null`. In the source a reply without the field makes `config.set('apiKey', undefined)` (lib/auth.js:116) throw, after lines 110-113 have already written the record and `activeKey`. The loop's `catch` (lib/auth.js:135-143) swallows that error and polling goes on. Each further `completed` answer writes another record, and the poll can end false with the store changed. The Conf library, whose `set` decides that throw, is not part of this model.
- Auth.AuthManager.PollForCompletion: `!ok ==> Store() == old(Store())` holds only under that assumption about `api_key`. A reply without it is not modelled.
- Auth.AuthManager.PollForCompletion: the outer `catch` (lib/auth.js:153-157) is not modelled. It only catches exceptions of the spinner and console code.
- The `session_id` argument of the status URL is not modelled, because `answer` already stands for the broker's replies to that session.
- Auth.AuthManager.constructor: takes the disk contents with distinct ids as given. The default base URL is not modelled for it.
- Auth.AuthManager.GetUserInfo, GetAllKeys, GetActiveKeyId and GetLoginInfo are plain field reads without a contract.
- `toLowerCase` lowers ASCII letters only. Unicode case mapping is not modelled.
- NaN, non-string JSON values (numbers as emails, objects as messages) and non-object bodies other than `null` are not modelled.
- JsText.NatToString: gives the plain decimal text that `${n}` produces only below 10^21. Beyond that JavaScript switches to exponent notation, which is not modelled.
- Integer-like keyIds: object key order puts them first. Generated keyIds are proved never integer-like, but such ids on disk are kept in insertion order by the model.
- `analyzeIngredient`, `analyzeRecipe`, `analyzeBatch`, `verifyFdcId` and `getDashboardStats` are not modelled. They only pass an HTTP request through.
- `healthCheck`'s saving, deleting and restoring of the Authorization header (lib/api.js:137-168) is not modelled.
- The success half of the interceptor (the identity on responses) is not modelled.
- bin/avocavo.js (command wiring, prompts, file reading, output) is not part of this model.

## Findings

| source | as written | input that shows it | evidently intended | confidence | as-written member | corrected member |
|---|---|---|---|---|---|---|
| lib/auth.js:223-230 | `!keys[keyId]` is also false for names inherited from Object.prototype | `setActiveKey("constructor")` on an empty store (`keys --switch constructor` in bin/avocavo.js:117) returns true and sets `activeKey` to a record that does not exist | only own keys count as stored, so the call returns false and leaves `activeKey` unchanged | high, not executed | PrototypeLookup.SetActiveKeyAsWrittenDangles | Auth.AuthManager.SetActiveKey |
| lib/auth.js:249-270 | the same lookup guards `delete keys[keyId]` | `removeKey("toString")` on an empty store returns true although nothing was removed | false for an id that is not stored | high, not executed | PrototypeLookup.RemoveKeyAsWrittenPhantom | Auth.AuthManager.RemoveKey |
| lib/auth.js:272-275 | the lookup `keys[keyId]` that feeds the `null` default also returns members inherited from Object.prototype | `getKeyInfo("toString")` on an empty store returns the function `Object.prototype.toString` instead of null. So the not-found guard of `keys --remove toString` (bin/avocavo.js:147-148) passes, and `keys --switch constructor` (bin/avocavo.js:119-120) prints an undefined nickname | null for an id that is not stored | high, not executed | PrototypeLookup.GetKeyInfoAsWrittenInherited | Auth.AuthManager.GetKeyInfo |
