# Review proxy: rate limiting, review normalisation, TTL cache, retry guard

A Dafny model of the logic at the centre of a small review proxy. A Laravel
API fetches customer reviews from Google Places and from the Facebook Graph
API and returns them in a fixed shape. A middleware throttles callers per
route. A Vue front end keeps answers in an in-memory TTL cache and resends
failed requests from an axios interceptor.

Modules, one per source file, plus two helpers:

- `Wrappers` (`wrappers.dfy`): `Option`, for values that may be missing.
- `Json` (`json.dfy`): decoded JSON values. It also holds PHP's
  `$a['k'] ?? $d` (`Field`, `Coalesce`, `Path`) and PHP truthiness.
- `Reviews` (`reviews.dfy`): the Google and Facebook mapping closures of
  `ReviewController`, Laravel's `collect(...)->map(...)`, and the
  `/test-apis` flags.
- `RateLimiting` (`rate_limiter.dfy`): `ApiRateLimiter`. This covers the
  ordered policy table and its first-match lookup (`FirstMatch`, with the
  loop `GetRouteLimit`), the caller key and rate key, and `handle`.
  The limiter's answers are supplied as a `Limiter` value. Downstream
  responses are `Response` objects whose header bag is updated in place.
- `Cache` (`cache_service.dfy`): `CacheService` as a class over a
  `map<K, Entry<V>>`. The clock reading is the parameter `now`.
- `ApiClient` (`api_client.dfy`): the client constants and the
  interceptor's guard, its in-place marking of the request config
  (`OnRejected`) and its backoff. `Dispatch` replays the interceptor over
  the replies that successive attempts receive. It takes a flag choosing
  the guard as written or the corrected guard (see Findings).

Facts about the code as written that the proofs establish:

- The `'test'` entry comes before `'test-apis'` in the policy table and
  occurs inside it. So the `{20, 60}` policy is never chosen.
- The routes in `api/routes/api.php` are declared as `reseñas/google` and
  `reseñas/facebook`, decoded or percent-encoded. They contain neither
  review pattern, so they get the default `{30, 60}` policy and not the
  strict `{10, 60}` one.
- The interceptor's own comment (`web/src/config/api.js:32`) says a failed
  request is retried up to `RETRY_ATTEMPTS` times, and `RETRY_ATTEMPTS` is 2
  (line 5). The code as written never retries a request config that nobody
  marked. The model follows the code; see Findings.

## Model

| member | source | states |
|---|---|---|
| `Json.Field` | api/app/Http/Controllers/ReviewController.php:24-28 | `$v['k']` under `??` is non-null exactly when `$v` is an associative array holding a non-null value at `k`, and then it is that value |
| `Json.Coalesce` | api/app/Http/Controllers/ReviewController.php:24-28 | `??` yields the left value unless it is null, stored or missing, and then the default |
| `Json.Path` | api/app/Http/Controllers/ReviewController.php:48-49 | following a chain of keys gives a non-null value exactly when every level is present and the last is non-null, and then it is the value stored there |
| `Json.Truthy` | api/app/Http/Controllers/ReviewController.php:65-66 | a value is falsy exactly when it is null, false, 0, "", "0", the empty list or the empty object |
| `Json.PathCoalesce` | api/app/Http/Controllers/ReviewController.php:48-49 | a `??` over a chain of keys yields the stored value exactly when every level of the chain is present and the last is non-null, and the default otherwise |
| `Reviews.MapItems` | api/app/Http/Controllers/ReviewController.php:22 | mapping over a list keeps its length and order: item `i` of the output is the closure applied to item `i` of the input |
| `Reviews.CollectMap` | api/app/Http/Controllers/ReviewController.php:22 | `collect($v ?? [])->map(f)`: null gives the empty list, a list maps element by element in order, an associative array keeps exactly its keys |
| `Reviews.GoogleReview` | api/app/Http/Controllers/ReviewController.php:23-29 | a record has exactly the keys author_name, profile_photo_url, rating, text, relative_time_description; each holds the provider's value when present and non-null, else 'Anónimo', null, 0, 'Sin comentario', '' |
| `Reviews.GoogleReviewsBody` | api/app/Http/Controllers/ReviewController.php:22-30 | a response without `result.reviews` gives the empty list; a list of reviews gives one normalised record per review, same length, same order |
| `Reviews.GoogleReviewIdempotent` | api/app/Http/Controllers/ReviewController.php:23-29 | normalising an already normalised Google record changes nothing |
| `Reviews.FacebookReview` | api/app/Http/Controllers/ReviewController.php:47-53 | a record has exactly the five Facebook keys; reviewer_name is read from reviewer.name, reviewer_picture from reviewer.picture.data.url, the others from their own key; a missing level anywhere or a null gives 'Anónimo', null, 0, 'Sin comentario', '' |
| `Reviews.FacebookReviewsBody` | api/app/Http/Controllers/ReviewController.php:46-54 | a response without `data` gives the empty list; a list gives one normalised record per rating, same length, same order |
| `Reviews.FacebookReviewCopiesPresentFields` | api/app/Http/Controllers/ReviewController.php:47-53 | a complete Graph API rating with non-null fields comes out with exactly those five values |
| `Reviews.FacebookMissingReviewer` | api/app/Http/Controllers/ReviewController.php:48-49 | a rating without a reviewer gets the anonymous name and a null picture |
| `Reviews.TestApisBody` | api/app/Http/Controllers/ReviewController.php:59-67 | the body has exactly the two keys; each says 'Funciona' when its configuration value is PHP-truthy and 'No encontrado' otherwise |
| `Reviews.TestApisFlagsIndependent` | api/app/Http/Controllers/ReviewController.php:65-66 | each flag depends only on its own configuration value |
| `Reviews.TestApisZeroStringNotFound` | api/app/Http/Controllers/ReviewController.php:65 | a key configured as the string "0" is reported as not found |
| `RateLimiting.StrContains` | api/app/Http/Middleware/ApiRateLimiter.php:99 | `str_contains` is true exactly when the needle occurs at some position of the route |
| `RateLimiting.ContainsTransitive` | api/app/Http/Middleware/ApiRateLimiter.php:99 | a substring of a substring of the route is a substring of the route |
| `RateLimiting.FirstMatch` | api/app/Http/Middleware/ApiRateLimiter.php:98-108 | the result is the policy of the first table entry, in order, whose pattern occurs in the route, and the default `{30, 60}` when none occurs |
| `RateLimiting.RouteLimit` | api/app/Http/Middleware/ApiRateLimiter.php:73-109 | the policy for a route is that of the first entry of the declared table whose pattern occurs in it, and `{30, 60}` when none occurs |
| `RateLimiting.GetRouteLimit` | api/app/Http/Middleware/ApiRateLimiter.php:73-109 | the loop with early return computes the first-match policy over the declared table |
| `RateLimiting.ReviewRoutesAreStrict` | api/app/Http/Middleware/ApiRateLimiter.php:78-85 | a route containing 'reviews/google' or 'reviews/facebook' gets `{10, 60}` |
| `RateLimiting.TestApisGetsTestPolicy` | api/app/Http/Middleware/ApiRateLimiter.php:87-94 | a route containing 'test-apis' and no review pattern gets the `{60, 60}` of 'test' |
| `RateLimiting.TestApisEntryUnreachable` | api/app/Http/Middleware/ApiRateLimiter.php:87-102 | no route is given the `{20, 60}` of 'test-apis' |
| `RateLimiting.RouteLimitBounds` | api/app/Http/Middleware/ApiRateLimiter.php:76-108 | every chosen policy has decay 60 and attempts 10, 30 or 60 |
| `RateLimiting.DefaultIffNoPattern` | api/app/Http/Middleware/ApiRateLimiter.php:98-108 | the default policy is chosen if and only if no pattern occurs in the route |
| `RateLimiting.RouteWithoutPatternLettersUsesDefault` | api/app/Http/Middleware/ApiRateLimiter.php:76-108 | a route with neither 'v' nor 't' gets the default policy |
| `RateLimiting.DeclaredReviewRoutesUseDefault` | api/routes/api.php:9-10 | the declared review paths, decoded or percent-encoded, get the default `{30, 60}` |
| `RateLimiting.CallerKey` | api/app/Http/Middleware/ApiRateLimiter.php:23-28 | an anonymous caller's key is its IP; an authenticated one's is 'user_', the id, '_', the IP, at those exact positions |
| `RateLimiting.RouteIdentifier` | api/app/Http/Middleware/ApiRateLimiter.php:31 | the route's name when it has one, the request path otherwise |
| `RateLimiting.RateKey` | api/app/Http/Middleware/ApiRateLimiter.php:31-36 | the rate key is 'api:', then the route name (or the path when unnamed), then ':', then the caller key, at those exact positions |
| `RateLimiting.RateKeyInjective` | api/app/Http/Middleware/ApiRateLimiter.php:36 | on colon-free routes two requests share a counter only with the same route identifier and the same caller key |
| `RateLimiting.RateKeyCollidesAcrossColon` | api/app/Http/Middleware/ApiRateLimiter.php:36 | a colon in a route name lets two different route/caller pairs share one key |
| `RateLimiting.CallerKeyInjective` | api/app/Http/Middleware/ApiRateLimiter.php:23-28 | authenticated callers with '_'-free ids share a caller key only with the same id and IP |
| `RateLimiting.AnonymousAndUserKeysDiffer` | api/app/Http/Middleware/ApiRateLimiter.php:23-28 | an anonymous IP that does not start with 'u' never equals an authenticated caller key |
| `RateLimiting.ThrottledBody` | api/app/Http/Middleware/ApiRateLimiter.php:46-50 | the 429 body has exactly error, message and retry_after, and retry_after is the limiter's availableIn |
| `RateLimiting.RateLimitHeaders` | api/app/Http/Middleware/ApiRateLimiter.php:57-61 | exactly the three headers; the limit is the policy's attempts, remaining and reset come from the limiter for the given key |
| `RateLimiting.Response.AddHeaders` | api/app/Http/Middleware/ApiRateLimiter.php:57 | the header bag gains the given headers, replacing older values, and nothing else changes |
| `RateLimiting.Handle` | api/app/Http/Middleware/ApiRateLimiter.php:20-65 | a refused attempt gives 429 with retry_after and leaves the downstream response untouched; otherwise the downstream result is returned and a Response gains the headers; all limiter calls use the same key and the route's policy |
| `Cache.EffectiveTtl` | web/src/services/cacheService.js:38 | a missing or zero custom expiry falls back to the cache's expiration time; any other value is used |
| `Cache.Lookup` | web/src/services/cacheService.js:16-29 | `get` answers the stored value exactly when the key is present and `now <= expiry`, so the boundary instant is still a hit |
| `Cache.Unexpired` | web/src/services/cacheService.js:63-70 | the swept map keeps exactly the entries with `now <= expiry`, unchanged |
| `Cache.CacheService.constructor` | web/src/services/cacheService.js:5-9 | a new cache is empty; its expiration time defaults to 15*60*1000 ms |
| `Cache.CacheService.Get` | web/src/services/cacheService.js:16-29 | answers `Lookup`; an expired entry found is deleted, and no other key changes; an absent or live key leaves the map unchanged |
| `Cache.CacheService.Set` | web/src/services/cacheService.js:37-39 | the key now maps to the value with expiry `now + (custom \|\| default)`; every other key is untouched |
| `Cache.CacheService.Delete` | web/src/services/cacheService.js:49-51 | removes exactly that key |
| `Cache.CacheService.Clear` | web/src/services/cacheService.js:56-58 | the map is empty |
| `Cache.CacheService.CleanExpired` | web/src/services/cacheService.js:63-70 | the loop leaves exactly the unexpired entries, unchanged |
| `Cache.SetThenGet` | web/src/services/cacheService.js:23-28 | on any cache, whatever its entries and expiration time, a get at the instant of a set, with a time to live that is not negative, returns the value set |
| `Cache.StoredValueExpires` | web/src/services/cacheService.js:23-26 | after the time to live has passed, get answers nothing |
| `Cache.SetLeavesOtherKeys` | web/src/services/cacheService.js:39 | setting one key, with any expiry, changes no other key's answer |
| `Cache.SweepPreservesLookups` | web/src/services/cacheService.js:63-70 | a sweep at `now` changes no answer get gives at `now` |
| `Cache.SweepIdempotent` | web/src/services/cacheService.js:63-70 | two sweeps at the same instant equal one; a later sweep subsumes an earlier one |
| `ApiClient.BaseUrl` | web/src/config/api.js:3 | an unset or empty environment variable gives the default base URL |
| `ApiClient.OnFulfilled` | web/src/config/api.js:28 | a successful reply passes through unchanged |
| `ApiClient.Mark` | web/src/config/api.js:39-40 | after marking, `_retry` is true and `_retryCount` is the old count, 0 when unset, plus one |
| `ApiClient.Backoff` | web/src/config/api.js:43 | the wait before retry number 1 or 2 is between 1000 and 2000 ms |
| `ApiClient.BackoffLinear` | web/src/config/api.js:43 | each further retry waits one second more than the previous one |
| `ApiClient.RequestConfig.constructor` | web/src/config/api.js:36-37 | a new request config has neither `_retry` nor `_retryCount` set |
| `ApiClient.OnRejected` | web/src/config/api.js:29-49 | when the written guard passes, the config is marked and the request is resent after `1000 * _retryCount` ms; otherwise the error is rejected and the config is left unchanged |
| `ApiClient.ShouldRetry` | web/src/config/api.js:33-38 | the guard as written passes only for a reply with status 500 or more on a config without `_retry`, and never while `_retryCount` is unset |
| `ApiClient.ShouldRetryIntended` | web/src/config/api.js:32-38 | the corrected guard passes only for a 5xx reply, and does pass for a 5xx on a config whose count is unset |
| `ApiClient.Dispatch` | web/src/config/api.js:27-49 | a replayed request resolves only with a 2xx reply and is rejected only with no reply or a non-2xx one; with no retry its outcome is that of the first reply; a retry happens only when the guard passed on the first reply |
| `ApiClient.GuardNeedsServerError` | web/src/config/api.js:34-35 | only a reply with status 500 or more is ever retried, never a timeout or a network failure |
| `ApiClient.FreshRequestNeverRetried` | web/src/config/api.js:37 | as written, an unmarked request is never retried: its first failure, 5xx included, is final |
| `ApiClient.AtMostOneRetryAsWritten` | web/src/config/api.js:36-39 | as written, a request config is retried at most once |
| `ApiClient.PresetCountStopsAfterOneRetry` | web/src/config/api.js:36-40 | as written, with `_retryCount` preset to 0, replies [500, 500, 200] end rejected with 500 after one retry |
| `ApiClient.IntendedRecoversAfterTwoRetries` | web/src/config/api.js:32-43 | with the corrected guard, [500, 500, 200] resolves with 200 after two retries and 3000 ms of waiting |
| `ApiClient.IntendedRetriesBounded` | web/src/config/api.js:5 | with the corrected guard, no request is retried more than RETRY_ATTEMPTS times |
| `ApiClient.IntendedExhaustsBudget` | web/src/config/api.js:32-48 | with the corrected guard, a request that only gets 5xx replies is retried exactly RETRY_ATTEMPTS times and rejected with the last 5xx |
| `ApiClient.IntendedRecovers` | web/src/config/api.js:32-43 | with the corrected guard, k <= RETRY_ATTEMPTS failures followed by a success resolve with that success after k retries and 1000·k(k+1)/2 ms |

## Findings

| source | as written | input that shows it | evidently intended | confidence | as-written member | corrected member |
|---|---|---|---|---|---|---|
| web/src/config/api.js:37 | `_retryCount < RETRY_ATTEMPTS` is tested before anything sets `_retryCount`, and `undefined < 2` is false | a request whose first reply is 500 and second 200: it is rejected with the 500 and never retried | retry a 5xx up to RETRY_ATTEMPTS times, counting an unset `_retryCount` as 0, as the comment on line 32 says | high, not executed | `ApiClient.FreshRequestNeverRetried` | `ApiClient.IntendedRecovers` |
| web/src/config/api.js:36,39 | `_retry` is set on the first retry and checked by the guard, so a config is retried at most once | `_retryCount` preset to 0, replies [500, 500, 200]: rejected with the second 500 after one retry | up to RETRY_ATTEMPTS retries, bounded by the count alone | medium, not executed | `ApiClient.PresetCountStopsAfterOneRetry` | `ApiClient.IntendedRecoversAfterTwoRetries` |

`ShouldRetry` is the guard as written, and `OnRejected` uses it.
`ShouldRetryIntended` is the corrected guard. Its properties are proved
through `Dispatch` with the flag set: `IntendedRetriesBounded`,
`IntendedExhaustsBudget` and `IntendedRecovers`.

## Left out

- Laravel's `RateLimiter` facade (`attempt`, `availableIn`, `remaining`, counter storage and window reset) is not part of this model. Its answers are the fields of a `Limiter` value, so Laravel's fixed-window counting is not modelled. Neither is the counter's change between `attempt` and the later calls.
- `RateLimiting.Handle`: header values are kept as integers and header names as written. Symfony's conversion to strings and to lower-case names is not modelled, because the header bag library is not shown.
- `RateLimiting.Handle`: `$request->path()` and `route()->getName()` are taken as given strings. A request with no matched route is not modelled; in the source it fails before the limiter runs.
- `RateLimiting.CallerKey`: the user id is taken in the string form that PHP concatenation gives it.
- The outbound HTTP calls to Google and Facebook, `response()->json` and the request and route objects are I/O. The body functions take the decoded provider response instead.
- `Json`: fractional numbers, and the order of keys in JSON objects, are not modelled. PHP's turning of numeric-string keys into integer keys is not modelled either.
- `Reviews.CollectMap`: a provider value that is an associative array keeps its keys but not their order.
- `Cache.CacheService.Get`: the answer is an `Option`. The source returns `null` both for a miss and for a stored `null`, and the model tells these apart.
- `Cache.EffectiveTtl`: the custom expiry is a number or absent. Other JavaScript values (strings, `NaN`) are not modelled.
- `Cache`: the wall clock is the parameter `now`. The `console.log` in `set` and the exported singleton are left out. JavaScript `Map` key equality is Dafny equality.
- `ApiClient`: creating the axios instance, the `setTimeout` wait and the re-dispatch through `apiClient(originalRequest)` are network I/O and async scheduling. `Dispatch` takes the replies of successive attempts as a function. It assumes the resent request keeps `_retry` and `_retryCount`.
- `ApiClient.Timeout` and the endpoint paths are constants only. The 10-second timeout enters the model only as an error with no reply.
- Concurrency and atomicity of the limiter counters and the cache: the code has no logic of its own for them.
- `web/vue.config.js` is development-server configuration, and `api/routes/api.php` only declares routes. Its paths serve as inputs to `DeclaredReviewRoutesUseDefault`.
