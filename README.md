# Proxy router and moon-buy pipeline, in Dafny

This project models two pieces of logic from a browser-side Solana trading client.

- **The proxy router** (`ProxyService`, `src/utils/proxyService.ts`).
  - It keeps an enabled flag, persisted under the local-storage key `vpnProxyEnabled`.
  - Its prefix is always the first of three public CORS relays.
  - It classifies URLs by prefix and rewrites proxiable ones as prefix + `encodeURIComponent(url)`.
  - Its `fetch` makes the proxied attempt, then falls back once to the direct URL.
- **The moon-buy pipeline** (`src/utils/moonbuy.ts`).
  - A process-wide rate limiter allows 2 bundles per 1000 ms window.
  - `completeBundleSigning` picks the wallets that must sign each transaction.
  - `executeMoonBuy` requests bundles from the trading backend, builds keypairs, signs every bundle, and submits the bundles one by one.
  - Each submission goes through `checkRateLimit` and `sendBundle`, with a 500 ms pause between sends.
  - `validateMoonBuyInputs` runs its checks in order.
  - The trading server's base URL has its trailing slashes stripped.

Modules:

- `Js` (`js.dfy`): the JavaScript values the core inspects.
  - `Option`, and `Result` whose error carries an exception's message.
  - `startsWith` and `substring`.
  - Numbers reduced to what `<`, `<=`, `isNaN` and `||` observe, with NaN as its own case.
- `UriEncoding` (`uri_encoding.dfy`): `encodeURIComponent` and its inverse `decodeURIComponent`.
  - Both follow sections 18.2.6.5 and 18.2.6.3 of ECMA-262 (6th edition): UTF-8 octets, each written `%XY` as in section 2.1 of RFC 3986.
  - Decoding what was encoded gives back the original string. So the relay's query string determines the original URL.
- `Proxy` (`proxy_service.dfy`): class `ProxyService` with the fields `isEnabled`, `proxyUrl` and the browser's `storage`.
  - The transport is modelled by two outcome parameters: what the platform's `fetch` returns for the first call, and what it would return for a second.
- `RateLimit` (`rate_limit.dfy`).
  - Class `RateLimitState`, whose `CheckRateLimit` is proved against the step function `RateStep`.
  - The clock is supplied by the caller: the time on entry, and the time after the sleep.
  - Runs of consecutive checks are proved to admit at most 2 sends per window (`AtMostMaxPerWindow`), under the hypothesis `HonestClock`: the clock does not go backwards (the first check comes no earlier than the window start it finds, each check no earlier than the previous send), and a sleep of `w` ms wakes no earlier than `w` ms later.
- `BundleSigning` (`bundle_signing.dfy`): signer selection, a loop proved against the fold `Signers`, and the signing of bundles.
  - The transaction library is a record of functions (`Codec`); a failing function stands for the exception it throws.
- `MoonBuy` (`moon_buy.dfy`).
  - Base URLs and the send-reply rule.
  - The submission loop, as method `SubmitBundles`, against the function `SubmitFrom`.
  - `executeMoonBuy`, as method `ExecuteMoonBuy`, against `MoonBuyRun`.
  - The backend's answer, the keypair constructor, the clock readings and the relay's replies are parameters (`Environment`, `Network`).
  - What the outside world sees is a trace of `Event`s: the bundle request, rate checks, sends and pauses.
- `Validation` (`validation.dfy`): `validateMoonBuyInputs`, proved against the function `Verdict`.

Points of the code's behaviour the model keeps as written:

- **Window type.** The limiter is a fixed window: the counter resets when 1000 ms have passed since `lastReset`, or after a sleep.
- **The fallback.** The code makes the direct retry whenever the router is enabled and the first call failed or threw. This includes URLs that were never wrapped, which are then requested a second time unchanged.
- **The retry is not awaited.** `return this.originalFetch(url, options)` is not awaited inside the `try`. So a failing retry is not caught by the `catch`, and there is never a third call.
- **The error message of `sendBundle`.** The message is `data.error.message || data.error || 'Unknown error from bundle server'`.
  - The third alternative can never be chosen, because the branch is only entered when `data.error` is truthy.
  - An error object with an empty message becomes the text `[object Object]`.

## Model

| member | source | states |
|---|---|---|
| Proxy.ProxyService.constructor | src/utils/proxyService.ts:15-23 | the flag is on exactly when the stored value under `vpnProxyEnabled` is the text `true`; the prefix is the first configured endpoint |
| Proxy.ReloadRestoresFlag | src/utils/proxyService.ts:20-21 | reading the flag back after it was written with either value yields that value |
| Proxy.ProxyService.Enable | src/utils/proxyService.ts:32-35 | the flag is on and storage holds `true` under the key, everything else in storage unchanged; only the flag and storage change |
| Proxy.ProxyService.Disable | src/utils/proxyService.ts:37-40 | the flag is off and storage holds `false` under the key, everything else unchanged |
| Proxy.ProxyService.Toggle | src/utils/proxyService.ts:42-49 | the flag is flipped, persisted, and the new value is returned; reading storage back gives the returned value |
| Proxy.ProxyService.IsActive | src/utils/proxyService.ts:51-53 | reports the flag |
| Proxy.ProxyService.WrapUrl | src/utils/proxyService.ts:56-64 | unchanged when disabled or not proxiable; otherwise exactly the prefix followed by `EncodeURIComponent(url)`, so what follows the prefix holds only unreserved characters and `%` (no raw `?`, `&`, `=` or `/` reaches the relay) and decodes to exactly the original URL |
| Proxy.ShouldProxyUrl | src/utils/proxyService.ts:67-87 | true exactly for URLs that start with `http://` or `https://` but start with neither `http://localhost` nor `http://127.0.0.1` |
| Proxy.LocalHttpsIsProxied | src/utils/proxyService.ts:69-86 | `https://localhost…` is proxied while `http://localhost…` is not, since only the plain scheme is tested |
| Proxy.EnhancedOptions | src/utils/proxyService.ts:94-100 | method and body are kept, headers are copied, and missing options or headers become an empty header set; with no options the result has no method and no body, only the empty headers |
| Proxy.ProxyService.Fetch | src/utils/proxyService.ts:90-120 | first call on the wrapped URL with the enhanced options; a second call (original URL and options) happens exactly when enabled and the first was not a 2xx response; at most two calls; the result is that of the last call; when disabled a non-ok response or a thrown error is handed back unchanged |
| Proxy.ProxyService.GetStatus | src/utils/proxyService.ts:123-128 | active is the flag; endpoint is the prefix when active and `Direct connection` otherwise |
| Proxy.StatusEndpoint | src/utils/proxyService.ts:123-128 | when active the endpoint is the first relay, and it reads `Direct connection` exactly when inactive |
| UriEncoding.EncodeURIComponent | src/utils/proxyService.ts:62 | the encoding consists only of unreserved characters and `%`, and is never shorter than its input |
| UriEncoding.Utf8RoundTrip | src/utils/proxyService.ts:62 | the UTF-8 octets of a character announce their own length in the lead octet and decode back to the character |
| UriEncoding.DecodeEncode | src/utils/proxyService.ts:62 | decoding the encoding of any string yields that string |
| UriEncoding.EncodeIdentity | src/utils/proxyService.ts:62 | a string is left unchanged by the encoding exactly when all its characters are unreserved |
| RateLimit.RateLimitState.constructor | src/utils/moonbuy.ts:10-14 | the module starts with count 0, window start at load time, quota 2 |
| RateLimit.RateLimitState.CheckRateLimit | src/utils/moonbuy.ts:45-61 | the new counter and window start, and the sleep taken, are those of the step function; the counter stays within 0 and the quota |
| RateLimit.WindowExpires | src/utils/moonbuy.ts:48-60 | once 1000 ms have passed since the window began, the check does not sleep and leaves count 1 and window start `now` |
| RateLimit.StepBounds | src/utils/moonbuy.ts:53-60 | after a check the count is between 1 and the quota; it sleeps exactly when the quota is used up inside the current window; and when the window began no later than `now`, the sleep lasts more than 0 and at most 1000 ms |
| RateLimit.CountInRange | src/utils/moonbuy.ts:45-61 | along any run of checks the counter stays within 0 and the quota, and is at least 1 after the first |
| RateLimit.WindowBeganBeforeCheck | src/utils/moonbuy.ts:45-61 | assuming `HonestClock` (the clock does not go backwards and a sleep lasts at least the wait asked for), every check finds a window that began no later than itself |
| RateLimit.SendInsideWindow | src/utils/moonbuy.ts:45-61 | assuming `HonestClock` (the clock does not go backwards and a sleep lasts at least the wait asked for), each send goes out within 1000 ms after the start of the window it is counted in |
| RateLimit.StepShape | src/utils/moonbuy.ts:45-61 | assuming `HonestClock` (the clock does not go backwards and a sleep lasts at least the wait asked for), a check either counts one more send in the window it found, or opens a new window at least 1000 ms later, starting at its send |
| RateLimit.SendTimesAscend | src/utils/moonbuy.ts:45-61 | assuming `HonestClock` (the clock does not go backwards and a sleep lasts at least the wait asked for), sends go out in order of time |
| RateLimit.QuotaHolds | src/utils/moonbuy.ts:45-61 | assuming `HonestClock` (the clock does not go backwards and a sleep lasts at least the wait asked for), once a window has counted `c` sends, the send that would exceed the quota goes out no earlier than 1000 ms after the window began |
| RateLimit.AtMostMaxPerWindow | src/utils/moonbuy.ts:45-61 | assuming `HonestClock` (a clock that does not go backwards, and sleeps that last at least the wait asked for), of any 3 consecutive sends the first lies in its window and the third goes out at least 1000 ms after that window began: no window holds more than 2 sends |
| BundleSigning.FindWallet | src/utils/moonbuy.ts:149-151 | the first wallet whose public key equals the account key, and none when no wallet has it |
| BundleSigning.SelectSigners | src/utils/moonbuy.ts:146-155 | the loop computes `Signers`: wallets whose key occurs among the account keys, without duplicates |
| BundleSigning.SignersSound | src/utils/moonbuy.ts:146-155 | every signer is a supplied wallet that is the first holder of some account key, and no signer appears twice |
| BundleSigning.SignersComplete | src/utils/moonbuy.ts:146-155 | every account key held by some wallet brings in the first wallet that holds it |
| BundleSigning.SignersOrdered | src/utils/moonbuy.ts:146-155 | signers are ordered by the first appearance of their keys among the account keys |
| BundleSigning.SignersCharacterized | src/utils/moonbuy.ts:146-155 | sound, duplicate-free, complete and ordered together |
| BundleSigning.FirstOfSharedKey | src/utils/moonbuy.ts:149-153 | of two wallets with the same key only the first found can sign |
| BundleSigning.SignAllPreservesOrder | src/utils/moonbuy.ts:140-162 | signing a bundle's transactions keeps their number and order, each result is that transaction signed, and a failure carries the error of the first transaction that fails |
| BundleSigning.CompleteBundleSigning | src/utils/moonbuy.ts:130-164 | a bundle without a transaction array becomes an empty bundle; otherwise signing succeeds exactly when every transaction signs, giving one signed transaction per transaction, in order, and a failure carries the error of the first transaction that fails |
| BundleSigning.SignBundles | src/utils/moonbuy.ts:194-196 | succeeds exactly when every bundle can be signed, giving one signed bundle per prepared bundle, in order, each the bundle's own signing; a failure carries the error of the first bundle that fails |
| MoonBuy.TrimTrailingSlashes | src/utils/moonbuy.ts:68 | the result is a prefix of the input that does not end in `/`, and everything removed is `/` |
| MoonBuy.TrimTrailingSlashesIdempotent | src/utils/moonbuy.ts:68 | stripping twice is stripping once |
| MoonBuy.BaseUrl | src/utils/moonbuy.ts:100 | an unset server URL gives the empty base; a set one gives it without trailing slashes |
| MoonBuy.EndpointsJoinCleanly | src/utils/moonbuy.ts:68-70 | both endpoint URLs start with the base, and the base never ends in a slash that would double the path's |
| MoonBuy.SendOutcome | src/utils/moonbuy.ts:78-84 | a failed request rethrows its message; an error object throws its message, or `[object Object]` when that is empty; a non-empty error text throws itself; otherwise the reply's result is returned |
| MoonBuy.SubmitSucceeds | src/utils/moonbuy.ts:200-218 | the submission succeeds exactly when the relay accepts every bundle, and then yields one result per bundle in bundle order |
| MoonBuy.SubmitSendsAll | src/utils/moonbuy.ts:201-213 | a successful submission sends every bundle's transactions once, in order, with `n - 1` pauses of 500 ms for `n` bundles |
| MoonBuy.SubmitPausesSeparate | src/utils/moonbuy.ts:201-213 | whatever the relay answers, every pause is of 500 ms and falls between a send and the next bundle's rate check: none before the first send, none after the last |
| MoonBuy.SubmitChecksFirst | src/utils/moonbuy.ts:205-206 | every send goes to `/api/transactions/send` on the base URL, immediately after a rate check |
| MoonBuy.FirstErrorIsReported | src/utils/moonbuy.ts:201-206 | the first refused bundle's message is the result of the submission |
| MoonBuy.FirstErrorEndsSends | src/utils/moonbuy.ts:201-206 | the bundles up to and including the first refused one are sent, in order, and none after it |
| MoonBuy.SubmitStopsAtFirstError | src/utils/moonbuy.ts:201-206 | the first refused bundle ends the submission with its message; it and the bundles before it were sent, none after it |
| MoonBuy.SubmitDrivesLimiter | src/utils/moonbuy.ts:205 | the loop drives the shared limiter through the run of checks of `RateLimit`, one per attempted send, at the clock readings of `Readings(net, n)`; so whenever `HonestClock` holds of those readings, the per-window guarantee applies to the sends |
| MoonBuy.SubmitBundles | src/utils/moonbuy.ts:200-213 | the loop's results, events and limiter state are those of `SubmitFrom` |
| MoonBuy.Addresses | src/utils/moonbuy.ts:178 | the wallet addresses, in wallet order |
| MoonBuy.Keypairs | src/utils/moonbuy.ts:189-191 | one keypair per wallet, in order, exactly when every key is accepted; otherwise the error of the first rejected key |
| MoonBuy.MoonBuyRun | src/utils/moonbuy.ts:169-226 | the first event is always the bundle request, to `/api/tokens/buy`, with the wallet addresses in order, the token, the amount and the custom amounts |
| MoonBuy.ExecuteMoonBuy | src/utils/moonbuy.ts:169-226 | outcome, events and the limiter's new state are those of `MoonBuyRun` |
| MoonBuy.MoonBuySendsOnlySignedBundles | src/utils/moonbuy.ts:180-197 | a failed bundle request, a rejected key or a failed signing reports that error, sends nothing and leaves the limiter untouched |
| MoonBuy.MoonBuySucceeds | src/utils/moonbuy.ts:199-218 | with all bundles signed, success exactly when the relay accepts every bundle; then one result per prepared bundle in order, every bundle sent once in order after a rate check, and `n - 1` pauses; whatever the relay answers, each pause lies between a send and the next rate check |
| MoonBuy.MoonBuyStopsAtFirstRefusal | src/utils/moonbuy.ts:219-224 | the relay's first refusal is reported as the failure message and no later bundle is sent |
| Validation.Balance | src/utils/moonbuy.ts:255 | a recorded truthy balance is used, anything else (missing, 0, NaN) counts as 0; never NaN |
| Validation.WalletError | src/utils/moonbuy.ts:251-258 | a wallet fails exactly when its address or key is empty (`Invalid wallet data`) or, failing that, its balance is below the amount (`Wallet <first 6 chars>... has insufficient balance`) |
| Validation.ValidateMoonBuyInputs | src/utils/moonbuy.ts:231-262 | the early-return loop returns the verdict of the ordered checks |
| Validation.FirstWalletErrorIsFirst | src/utils/moonbuy.ts:250-259 | no wallet error exactly when every wallet passes; an error is that of the first failing wallet |
| Validation.ValidIff | src/utils/moonbuy.ts:236-261 | valid exactly when the token address is set, the amount is a positive number, there is a wallet, and every wallet has address, key and enough balance |
| Validation.InvalidReportsFirstFailure | src/utils/moonbuy.ts:250-258 | with token and amount fine, the verdict is the error of the first failing wallet |
| Validation.ValidMeansFunded | src/utils/moonbuy.ts:241-258 | a valid buy spends a positive amount that every wallet's balance covers |

## Left out

- Lone surrogates: Dafny's characters are Unicode scalar values, so the `URIError` that `encodeURIComponent` throws for an unpaired surrogate cannot arise in the model.
- `Headers` objects and header arrays: options' headers are modelled as a plain map; spreading a `Headers` instance (which yields `{}`) is not modelled.
- `getInstance` and the binding of the platform's `fetch` in the constructor: singleton mechanics.
- The model reads `isEnabled` once per `Fetch`, while the source reads it before the awaited first call (in `wrapUrl`) and after it, so a toggle during that call is not modelled (no concurrency).
- `fetchWithTimeout`, `fetchApiWithTimeout` and `parseBundleResponse` are not part of this model: the backend's parsed bundles, or the error, and the relay's replies are parameters.
- The request bodies and headers of both backend calls: the bundle request event records the URL, wallet addresses, token, amount and custom amounts, not `protocol`, the API key or the tip.
- The tip conversion `Math.floor(parseFloat(fee) * 1e9)` and the cookie configuration: floating point and environment I/O.
- `sendBundle`'s `data.error` is modelled as an object with a message or a string; other truthy values are not modelled (a number `5` would give the message `5`, an array `[]` the message `''`).
- `sendBundle`'s `data.result` is modelled as an optional string; other JSON values are not distinguished. A failing request or JSON parse is a `Failed` reply with its message.
- `window.tradingServerUrl` is either unset or a string; other values are not modelled.
- Timers: the 500 ms pause is an event in the trace; the limiter's sleep is the clock reading after it, supplied by the caller; the 15 s and 20 s timeouts are not modelled.
- Concurrent moon buys sharing the limiter: the code does not synchronise the shared state, and the model covers single-threaded use only.
- Console logging.
- Numbers are compared only; arithmetic on amounts and negative zero are not modelled.
- `src/utils/fetchWithProxy.ts` and `src/utils/jitoService.ts` are not part of this model.
- The cryptography and serialisation libraries (`bs58`, `VersionedTransaction`, `Keypair`) are opaque functions.
- `Js.Substring` counts Unicode scalar values, while JavaScript's `substring(0, 6)` counts UTF-16 code units, so the `Wallet …... has insufficient balance` message differs from the source's for an address holding a character outside the Basic Multilingual Plane.
