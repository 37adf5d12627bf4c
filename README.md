# tokensoft-sdk core, modelled in Dafny

This project models the core of the Tokensoft SDK client (`TokensoftSDK` in
`src/TokensoftSDK.ts`, with the `Projection` / `Result` types of `src/Types.ts`):

- **Projections** (`Types.dfy`, `ProjectionRender.dfy`). A projection object chooses which fields of a
  GraphQL type a call requests. The model has three parts:
  - its typing rule, `Projection<T>`, in a corrected form that also lets a boolean select an array
    of scalars (see "## Findings"). The corrected rule accepts every projection the written rule
    accepts, so the lemmas stated over it cover everything the source accepts;
  - the result type it implies, `Result<T, P>`;
  - `constructProjection`, the loop that renders a projection as a GraphQL selection set
    (`{ a,b { c } }`).

  The loop is an imperative method. It is proved equal to a recursive `Render` function, and a
  parser for the rendered text proves that, for projections whose keys are GraphQL names,
  `Render` loses nothing except the entries it deliberately drops (falsy flags). A key that is
  not a name, such as `"a,b"`, can render like two keys.
- **Response unwrapping** (`ResponseUnwrap.dfy`). `throwErrors` decides whether a GraphQL response is fatal
  and builds the `Errors: name: message - data; ...` text.
- **Transfer restrictions** (`Restriction.dfy`). `detectTransferRestriction` reads the ERC-1404
  restriction code: code 0 means no obstruction, and any other code gives one obstruction
  describing it.
- **The client object** (`Client.dfy`). The class covers:
  - the constructor's argument checks and option defaults;
  - the `timecache` field that `getServerTime` refreshes when it is older than
    `maxTimecacheAgeMs`;
  - the order in which `sendRequest` signs: server time first, then the HMAC over the timestamp
    followed by the body.
- `Strings.dfy` holds the string helpers: `Array.prototype.join`, `String(n)` for integers and
  its inverse, and substring containment. `Wrappers.dfy` holds `Option` and `Result`.

JavaScript values are modelled by `Types.Value` (`undefined`, `null`, booleans, integers, strings,
objects as maps, arrays as sequences) with JavaScript truthiness. Schemas (`Types.Schema`) stand for
the TypeScript types a projection is checked against.

Several things outside the client's reach become function parameters:
- HMAC-SHA256, `JSON.stringify` and the contract calls are parameters.
- The clock is a parameter: the three `Date.now()` readings of one `getServerTime` call, together
  with the server's answer, form one `Client.TimeRequest`.

## Model

| member | source | states |
|---|---|---|
| ProjectionRender.ConstructProjection | src/TokensoftSDK.ts:556-575 | the loop over the projection's entries (skip falsy, push the key for `true`, push `key {…}` recursively for objects, then join with "," inside "{ " and " }") produces exactly `Render(f)` |
| ProjectionRender.Render | src/TokensoftSDK.ts:574 | every rendering starts with "{ " and ends with " }" |
| ProjectionRender.RenderNormal | src/TokensoftSDK.ts:561-564 | dropping the falsy entries (and reading a bare flag as the empty set) does not change the rendering |
| ProjectionRender.AllFalseRendersEmpty | src/TokensoftSDK.ts:561-564 | a projection whose entries are all `false` renders as "{  }" |
| ProjectionRender.EmittedLength | src/TokensoftSDK.ts:557-573 | the collection holds one item per truthy entry |
| ProjectionRender.ParseRender | src/TokensoftSDK.ts:556-575 | for a projection whose keys are GraphQL names, at every depth, parsing the rendered selection set (followed by any text) returns the projection without its falsy entries, and the text after it |
| ProjectionRender.RenderDeterminesNormal | src/TokensoftSDK.ts:556-575 | two projections with GraphQL-name keys render the same text if and only if they agree after dropping falsy entries |
| ProjectionRender.RenderExample | src/Types.ts:325-337 | the documented example projection, without its array part, renders as "{ email,address { country { code } } }" |
| Types.ProjectionOf | src/Types.ts:353-360 | `P extends Projection<T>` in the corrected form: a record type; each shared key holds a boolean for a scalar or an array of scalars, and a nested projection for a record or an array of records |
| Types.ProjectionOfAsWritten | src/Types.ts:353-360 | `P extends Projection<T>` as written: like `ProjectionOf`, except that an array-of-scalars field admits no boolean or object |
| Types.ResultType | src/Types.ts:362-373 | `Result<T, P>`: a record with the keys P and T share; per key, false gives undefined, true gives T[K], an array field gives an array of sub-results, and any other field gives the sub-result |
| Types.Apply | src/Types.ts:362-373 | the value a projected query yields: an object with exactly the keys P and T share, each field projected as `ResultType` prescribes |
| Types.ResultKeys | src/Types.ts:362-364 | the result and its type have exactly the keys shared by the projection and the type |
| Types.ResultField | src/Types.ts:364-371 | per key: a `false` entry gives undefined, `true` gives the field unchanged, an object entry gives the sub-result, and over an array the sub-result of each element |
| Types.ApplyConforms | src/Types.ts:362-373 | applying a valid projection (under the corrected rule) to a value of type `T` gives a value of type `Result<T, P>` |
| Types.ProjectionOfResult | src/Types.ts:353-373 | under the corrected rule, a projection of `T` is also a projection of `Result<T, P>` |
| Types.ApplyIdempotent | src/Types.ts:362-373 | for a valid projection under the corrected rule, applying the same projection to its own result changes nothing |
| Types.EmptyProjection | src/Types.ts:353-354 | every field is optional, so `{}` projects any record type, with an empty result |
| Types.DropKey | src/Types.ts:354 | removing any entry from a valid projection (under the corrected rule) leaves a valid projection |
| Types.AsWrittenIsProjection | src/Types.ts:353-360 | every projection the rule as written accepts is valid under the corrected rule, so the lemmas above apply to it |
| Types.ScalarArrayUnselectableAsWritten | src/Types.ts:355-356 | as written, no projection value can select a field of type `Array<string>` |
| Types.EveryFieldSelectable | src/Types.ts:353-360 | with the corrected rule, every field of a well-formed record type can be selected on its own |
| Types.ScalarArrayKeptByFlag | src/Types.ts:365-368 | with the corrected rule, `true` on an array-of-scalars field returns the array unchanged |
| ResponseUnwrap.ThrowErrors | src/TokensoftSDK.ts:533-551 | throws if and only if errors are present (non-empty) and the data is missing or some query returned null; the thrown text is the formatted error list; otherwise returns the data, which then holds no null when errors are present |
| ResponseUnwrap.Descriptions | src/TokensoftSDK.ts:543-545 | one description per error, in order, each `name: message` plus ` - JSON` when the data is truthy |
| ResponseUnwrap.ErrorMessage | src/TokensoftSDK.ts:541-546 | the thrown text starts with "Errors: "; for one error it is "Errors: " followed by that error's description |
| ResponseUnwrap.MessageListsEachError | src/TokensoftSDK.ts:541-546 | the thrown text starts with "Errors: " and contains each error's description and message |
| ResponseUnwrap.SingleErrorMessage | src/TokensoftSDK.ts:542-545 | for a single error the text is "Errors: name: message", with no data suffix when the data is falsy |
| ResponseUnwrap.UnwrapScenarios | src/TokensoftSDK.ts:528-551 | errors with missing data throw; errors beside valid data are warnings; errors with a null query result throw |
| Restriction.DetectTransferRestriction | src/TokensoftSDK.ts:414-446 | without a provider it throws the fixed programmer message; otherwise code 0 gives no obstruction, and any other code gives exactly one, whose `code` is the contract's message and whose text is the "Got error code N (...)" description, which contains the decimal code and the message |
| Restriction.RestrictionText | src/TokensoftSDK.ts:443-444 | the obstruction text starts with "Got error code " followed by the decimal code, and ends with "method" |
| Restriction.RestrictionTextMentions | src/TokensoftSDK.ts:443-444 | the obstruction text contains the decimal code and the message |
| Restriction.RestrictionTextCode | src/TokensoftSDK.ts:443 | the code is recoverable from the text at its fixed offset |
| Restriction.RestrictionScenarios | src/TokensoftSDK.ts:419-445 | no provider throws; code 0 gives `[]`; code 1 with message "Whitelist issue" gives exactly one obstruction, whose `code` is that message |
| Restriction.CodeOneText | src/TokensoftSDK.ts:443-444 | the description for code 1 contains "1" and the contract's message |
| Strings.DecimalRoundTrip | src/TokensoftSDK.ts:522-524 | `String(n)` of an integer parses back to `n` |
| Strings.JoinHasEach | src/TokensoftSDK.ts:545 | every joined item occurs in the joined text |
| Client.CheckArgs | src/TokensoftSDK.ts:27-53 | construction succeeds if and only if the URL, key id and secret are all non-empty; it reports the first missing one by its exact message; the maximum cache age defaults to 1200000 ms and the transport to node-fetch, and given options override the defaults |
| Client.CacheAfter | src/TokensoftSDK.ts:494-519 | a missing cache, or one older than the maximum age (strictly), is replaced by the fetched time and the local clock; otherwise it is kept |
| Client.RefreshReturnsFetched | src/TokensoftSDK.ts:515-524 | right after a refresh, with no clock movement, the returned time is the server's time |
| Client.WarmCacheAdvances | src/TokensoftSDK.ts:494-497 | a cache within the maximum age is reused, and the returned time advances with the local clock |
| Client.ZeroMaxAgeAlwaysFetches | src/TokensoftSDK.ts:496 | with a maximum age of 0, every call fetches, provided the clock advances between calls |
| Client.SameMillisecondReusesCache | src/TokensoftSDK.ts:494-497 | with a maximum age of 0, two calls within the same millisecond fetch once, and both return the first fetched time, because the age comparison is strict |
| Client.WarmRun | src/TokensoftSDK.ts:494-524 | calls within a warm cache's age never fetch and leave the cache unchanged |
| Client.LongMaxAgeFetchesOnce | src/TokensoftSDK.ts:492-525 | when the maximum age covers the session, only the first call fetches, and each returned time is the first server time plus the local clock's progress |
| Client.Sign | src/TokensoftSDK.ts:465-477 | the request carries the key id, the timestamp header, the JSON content type, POST and the unchanged body, and its signature is the HMAC of the timestamp followed by the body |
| Client.SignedTextSplits | src/TokensoftSDK.ts:465 | the signed text needs no separator: a body starting with a non-digit, as JSON does, cannot be confused with the end of the timestamp |
| Client.TokensoftClient.Create | src/TokensoftSDK.ts:27-53 | construction fails with the `CheckArgs` message, or yields a fresh client with those options and an empty cache |
| Client.TokensoftClient.GetServerTime | src/TokensoftSDK.ts:492-525 | the cache field moves to `CacheAfter`, and the returned string is the decimal form of the adjusted server time and parses back to it |
| Client.TokensoftClient.SendRequest | src/TokensoftSDK.ts:460-478 | the server time is taken first (updating the cache), then the request is signed with that time as its timestamp; the signature is valid and the body is sent unchanged |

## Left out

- The HTTP exchange (`fetch`, `res.json()`), the `console.log` on failure and the rethrow. `SendRequest` stops at the signed request.
- HMAC-SHA256 and `JSON.stringify` are not defined here. They are function parameters, and the only property relied on is that they are functions.
- `Date.now()` readings and the server's `{ time }` answer are inputs (`Client.TimeRequest`). `Number(data.time)` is assumed to be an integer; NaN and fractional times are not modelled.
- Integers are unbounded. `String(n)` is modelled for integers only, so the exponent notation JavaScript uses from 1e21 up is not.
- Concurrency: two overlapping `getServerTime` calls can both refresh the cache. The model runs calls one after another.
- The web3 contract object and its ABI. The two contract calls are function parameters of `DetectTransferRestriction`. Their return value is taken as a natural number, so `Number(code)` of a non-numeric string is not modelled.
- The endpoint wrappers (queries and mutations built on `constructProjection`, `sendRequest` and `throwErrors`), `index.ts`, `GraphQL.ts` and `Eth.ts` are not part of this model. Neither are the test fakes.
- TypeScript typing subtleties:
  - the literal-type widening that decides whether `P[K] extends true` holds. The model takes projection entries as literals.
  - optional and union-typed fields.
  - the weak-type check: every key of `Projection<T>` is optional, so TypeScript rejects a projection that shares no key with T (`{ bogus: true }` for `User`). `Types.ProjectionOf` accepts it. The lemmas over `ProjectionOf` hold for this larger set, so they also hold for the projections TypeScript accepts.
  - nested arrays (`Array<Array<T>>`), which well-formed schemas exclude.
- JavaScript object key order is taken as insertion order. Integer-like keys, which JavaScript enumerates first, are not modelled. GraphQL names never look like integers.
- Render: a truthy non-object, non-`true` projection value (a number or a string) makes the source recurse on it. The model's projections hold only booleans and objects.
- Client.CheckArgs: an options object holding an explicit `undefined` for `maxTimecacheAgeMs` or `fetch` overrides the default with `undefined` in the source. The model reads a missing option as absent.
- Client.ZeroMaxAgeAlwaysFetches: a maximum age of 0 forces a fetch only when the clock has advanced since the last refresh. The comparison is a strict `>`, so a call within the same millisecond reuses the cache (`Client.SameMillisecondReusesCache`).
- The unit test at test/index.test.ts:11 expects `new TokensoftSDK('', '', '')` to succeed. The constructor throws `missing apiUrl argument` for it, and the model follows the constructor.

## Findings

| source | as written | input that shows it | evidently intended | confidence | as-written member | corrected member |
|---|---|---|---|---|---|---|
| src/Types.ts:355-356 | an array field maps to `Projection<U>` of its element type; for a scalar element, a homomorphic mapped type over a primitive is that primitive, so the field's projection type is `string` | `User.permissions: Array<string>` (src/Types.ts:444) with `{ permissions: true }` or `{ permissions: {} }`: no boolean or object value is accepted. A string is accepted and is not a usable selection: `{ permissions: "" }` selects nothing, and `{ permissions: "x" }` makes `constructProjection` recurse without end | arrays of scalars are selected by a boolean, like scalar fields | medium, not executed | Types.ScalarArrayUnselectableAsWritten | Types.EveryFieldSelectable |
