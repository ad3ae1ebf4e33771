# Batch-cached user pagination, modelled in Dafny

The user controller of this Laravel application lists users fetched from the
random-user API. It never asks the API for a single page. Instead it fetches a
batch of `resultsCount` users (50 by default) and caches it under a key built
from the gender filter and the batch number. Each page of ten users is then a
slice of that batch. The `index` endpoint renders the page. The `export`
endpoint repeats the same steps and writes the page as CSV rows.

The model follows that code path:

- `php.dfy`, module `Php`: the PHP 8 semantics the path relies on. This covers
  truthiness of request strings, `ceil` of an integer quotient and how that
  float prints in a string, the `%` operator (sign of the dividend, throws on
  zero), `array_slice` (negative offsets count from the end) and `ucfirst`.
- `upstream.dfy`, module `Upstream`: the user record, the upstream query each
  endpoint builds, and the supplier's outcome `Ok(records) | Err`. The HTTP
  request is an abstract total function `Api` of the URL and the query.
- `batch_cache.dfy`, module `Cache`: `remember` as a class `BatchCache` with
  a map field and a `Remember` method, specified by the pure function
  `Remembered`. A ghost trace `Calls` records every supplier run.
- `pagination.dfy`, module `Pagination`: the cache key, the batch number, the
  offset inside the batch, and the window a page shows.
- `csv.dfy`, module `Csv`: the header and data rows of the export, and the
  `foreach` loop that appends them.
- `user_controller.dfy`, module `UserController`: the two endpoints as
  methods over the shared cache. They are specified by the pure functions
  `IndexView` and `ExportResponse`, and lemmas relate the two endpoints.

Edge cases are modelled as the code has them. No clamping is invented:

- A page below 1 can give a negative offset (page 0 with more than ten
  records per batch gives -10), which `array_slice` counts from the end. It
  can also give offset 0, for example page -4 with the default 50.
- The key prints the batch number of pages -4..-1 as `-0`.
- A configured count in (-10, 0] makes `%` divide by zero, and the `catch`
  block handles that.

Some behaviours of the code are easy to miss and are stated as proved facts:

- An unsupported gender is dropped from the query but kept, raw, in the
  cache key (`UnsupportedGenderSeparateKey`).
- The cache key groups pages in a fixed five per batch, while the offset
  divides by `ceil(resultsCount / 10)` (see Findings).
- Pages below 1 are not clamped (`PageZeroShowsTail`).
- The divide-by-zero failure of a count in (-10, 0] happens after `remember`
  has stored the batch, so a failed request can leave an entry behind
  (`ZeroCountFailsAfterCaching`).

## Model

| member | source | states |
|---|---|---|
| `Php.CeilDiv` | app/Http/Controllers/UserController.php:47 | `ceil($a / $b)` is the unique r with b(r-1) < a <= br |
| `Php.CeilDivUnique` | app/Http/Controllers/UserController.php:70 | any r with b(r-1) < a <= br is the ceiling |
| `Php.Mod` | app/Http/Controllers/UserController.php:70 | PHP `%` throws exactly on a zero divisor. Otherwise a = b*intdiv(a,b) + r with abs(r) < abs(b), and r takes the dividend's sign |
| `Php.ModNonNegative` | app/Http/Controllers/UserController.php:70 | on a non-negative dividend and positive divisor PHP `%` equals Dafny `%` |
| `Php.ModUnique` | app/Http/Controllers/UserController.php:70 | the remainder in [0, m) that completes a quotient is unique |
| `Php.Truthy` | app/Http/Controllers/UserController.php:47 | null and "" are falsy, of the one-character strings only "0" is falsy, and every longer string is truthy |
| `Php.OrElse` | app/Http/Controllers/UserController.php:47 | `$s ?: $default` is the parameter when it is truthy, and then the result is truthy too. It is the default for null, "" and "0" |
| `Php.NatString` | app/Http/Controllers/UserController.php:47 | a natural number prints as one or more decimal digits, a single digit exactly below 10. Its partner `NatStringInjective` shows distinct numbers print differently |
| `Php.IntString` | app/Http/Controllers/UserController.php:47 | an integer prints as digits with a leading minus exactly when it is negative. Its partner `IntStringInjective` shows distinct integers print differently |
| `Php.SliceStart` | app/Http/Controllers/UserController.php:72 | `array_slice` starts at the offset when it is in range, starts at the end (keeping nothing) for an offset past the end, counts a negative offset back from the end, and clips one reaching before the first element to 0 |
| `Php.ArraySlice` | app/Http/Controllers/UserController.php:72 | the slice is a contiguous, order-preserving window of at most `length` elements from the start index, short only at the end of the list |
| `Php.Ucfirst` | app/Http/Controllers/UserController.php:173 | same length, tail unchanged, an ASCII lower-case first letter is upper-cased and any other first character is kept |
| `Php.NatStringInjective` | app/Http/Controllers/UserController.php:47 | distinct natural batch numbers print differently |
| `Php.IntStringInjective` | app/Http/Controllers/UserController.php:47 | distinct integers print differently |
| `Php.NotNegativeZero` | app/Http/Controllers/UserController.php:47 | no integer prints as "-0" |
| `Php.CeilString` | app/Http/Controllers/UserController.php:47 | the printed `ceil($page / 5)` is made of digits and minus signs only, so it has no underscore |
| `Php.CeilStringInjective` | app/Http/Controllers/UserController.php:47 | two quotients print alike exactly when their ceilings agree and both or neither is negative zero |
| `Upstream.InSupportedList` | app/Http/Controllers/UserController.php:55 | `in_array($gender, ['male', 'female'])` holds exactly for "male" and "female", and a listed value is always truthy |
| `Upstream.IndexQuery` | app/Http/Controllers/UserController.php:51-57 | `results` is always the configured count. `gender` is present exactly when the parameter is "male" or "female", and then it is that value |
| `Upstream.ExportQuery` | app/Http/Controllers/UserController.php:135-137 | the same contract under the export's guard, which has no truthiness test |
| `Upstream.QueriesAgree` | app/Http/Controllers/UserController.php:137 | the two guards build the same query for every gender |
| `Upstream.UnsupportedGenderQueriesAll` | app/Http/Controllers/UserController.php:55-57 | any gender other than male/female sends exactly the unfiltered query |
| `Cache.Remembered` | app/Http/Controllers/UserController.php:49-66 | a hit returns the stored batch whatever the supplier would do. A miss returns the supplier's outcome. A returned batch is the stored one. Only success adds the key. Existing entries are never replaced |
| `Cache.RememberAgain` | app/Http/Controllers/UserController.php:49 | after a batch is returned, asking again returns the same batch and changes nothing |
| `Cache.FailureIsNotCached` | app/Http/Controllers/UserController.php:61-63 | a throwing supplier leaves the store unchanged, so the next call runs the supplier again |
| `Cache.BatchCache.Remember` | app/Http/Controllers/UserController.php:133-146 | the new result and store are `Remembered` of the old store. The supplier run is logged only on a miss. Every stored key was fetched |
| `Pagination.FilterLabel` | app/Http/Controllers/UserController.php:47 | `$gender ?: 'all'` is the raw parameter when it is truthy and "all" otherwise, so the label is never falsy |
| `Pagination.BatchId` | app/Http/Controllers/UserController.php:47 | `ceil($page / 5)` is the b with 5(b-1) < page <= 5b, and is at least 1 for a positive page |
| `Pagination.CacheKey` | app/Http/Controllers/UserController.php:47 | every key starts with `users_` and ends with the printed batch number, which is exactly the part after the last underscore. Partners `KeyInjective` and `SameKeyIffSameBatch` state when two requests share a key |
| `Pagination.BatchIdGroupsFivePages` | app/Http/Controllers/UserController.php:47 | `ceil($page / 5)` equals b exactly for pages 5b-4 .. 5b |
| `Pagination.TailAfterBatch` | app/Http/Controllers/UserController.php:47 | in a key, the longest suffix without an underscore is exactly the printed batch number |
| `Pagination.SplitAtBatch` | app/Http/Controllers/UserController.php:47 | a key splits into its label and its batch number in one way only |
| `Pagination.KeyInjective` | app/Http/Controllers/UserController.php:47 | two requests share a key exactly when their filter labels agree and their batch numbers print alike |
| `Pagination.SameKeyIffSameBatch` | app/Http/Controllers/UserController.php:130 | for one filter and positive pages, the key is shared exactly when the batch number is (pages 1-5, 6-10, ...) |
| `Pagination.UnsupportedGenderSeparateKey` | app/Http/Controllers/UserController.php:47-57 | an unsupported gender sends the unfiltered query. It shares the unfiltered key exactly when it is falsy or "all" |
| `Pagination.PagesPerBatch` | app/Http/Controllers/UserController.php:70 | `ceil($resultsCount / 10)` is the fewest pages of ten that hold the batch. It is positive for a positive count and zero exactly for a count in (-10, 0] |
| `Pagination.Offset` | app/Http/Controllers/UserController.php:70 | the offset throws exactly for a configured count in (-10, 0]. Otherwise it is a multiple of ten |
| `Pagination.OffsetInBatch` | app/Http/Controllers/UserController.php:68-70 | for a positive page and count, the offset is 10 * ((page-1) mod ceil(count/10)) and lies in [0, count) |
| `Pagination.PageZeroShowsTail` | app/Http/Controllers/UserController.php:70-72 | page 0 is not clamped: its offset is -10 and it shows the last ten records |
| `Pagination.DefaultCountAgreesWithKey` | app/Http/Controllers/UserController.php:45-70 | with 50 per batch the offset divisor is the key's 5, and page p shows page p-5(b-1) of its batch b |
| `Pagination.Resolve` | app/Http/Controllers/UserController.php:147-152 | fails exactly when the supplier failed, or on a zero divisor after a fetch. Otherwise, for every page and count, the window is `array_slice` of the fetched batch at the computed offset, so at most ten users |
| `Pagination.PageWindow` | app/Http/Controllers/UserController.php:72 | for a positive page and count the page is `batch[min(o,n) .. min(o+10,n))` at the computed offset o |
| `Pagination.PageOfBatch` | app/Http/Controllers/UserController.php:68-72 | page k + 1 of a full batch, counting pages by the offset divisor, shows records 10k .. 10k + 9 |
| `Pagination.DefaultBatchShownOnce` | app/Http/Controllers/UserController.php:45-72 | with the default count, the five pages of batch b all name b and together show the batch once, in order |
| `Pagination.ThirtyRecordsRepeatPageOne` | app/Http/Controllers/UserController.php:47-70 | with 30 per batch, page 4 has page 1's key and page 1's offset |
| `Pagination.CorrectedBatchId` | app/Http/Controllers/UserController.php:47 | the batch number grouped by the offset divisor is at least 1 for positive pages |
| `Pagination.CorrectedCacheKey` | app/Http/Controllers/UserController.php:47 | the corrected key has the same shape as the code's key, and ends with the batch number counted by the offset divisor |
| `Pagination.CorrectedKeyIffSameBatch` | app/Http/Controllers/UserController.php:47-70 | under corrected batching, two positive pages share a key exactly when they share a corrected batch number |
| `Pagination.CorrectedBatchShownOnce` | app/Http/Controllers/UserController.php:45-72 | for any positive count, the pages of corrected batch b all name b and together show the batch once, in order |
| `Pagination.CorrectedPagesDistinct` | app/Http/Controllers/UserController.php:68-70 | under corrected batching, distinct positive pages never share both batch and offset |
| `Pagination.CorrectedAgreesWhenFivePages` | app/Http/Controllers/UserController.php:47 | where the offset divisor is 5, the corrected key is the code's key |
| `Csv.UserRow` | app/Http/Controllers/UserController.php:170-175 | a row has one field per header column: first name, a space and last name; email and nationality unchanged; the gender passed through `ucfirst` |
| `Csv.DataRows` | app/Http/Controllers/UserController.php:169-176 | one row per user, in order: full name, email, `ucfirst` gender, nationality |
| `Csv.Table` | app/Http/Controllers/UserController.php:167-176 | the header row `Name, Email, Gender, Nationality`, then row i+1 for user i, so 1 + n rows |
| `Csv.TableShape` | app/Http/Controllers/UserController.php:170-175 | every row has four fields, and the name field is first, a space and last |
| `Csv.WriteTable` | app/Http/Controllers/UserController.php:163-179 | the header-then-`foreach` loop builds exactly `Table(users)` |
| `UserController.IndexView` | app/Http/Controllers/UserController.php:28-108 | there are pagination controls exactly when there is no error. On error the message is fixed and the page is empty. On success there are at most ten users and the paginator gets (users, count, 10, page). The cache is left as `remember` leaves it |
| `UserController.ExportResponse` | app/Http/Controllers/UserController.php:119-180 | a failure redirects back with the fixed message. Success is a header plus at most ten rows. The cache is left as `remember` leaves it |
| `UserController.ExportAgreesWithIndex` | app/Http/Controllers/UserController.php:130-152 | for the same request and cache, export leaves the same cache as index and fails exactly when index does. Otherwise it writes exactly `Table` of the users index displays |
| `UserController.HitIgnoresUpstream` | app/Http/Controllers/UserController.php:49 | on a cache hit the API's answer makes no difference to either endpoint |
| `UserController.IndexShowsWindow` | app/Http/Controllers/UserController.php:68-85 | for a positive page and count, index errs exactly when the batch cannot be had. Otherwise it shows the window at the offset, and `details` is the batch |
| `UserController.UpstreamFailureOutcome` | app/Http/Controllers/UserController.php:87-92 | when the supplier fails on a miss, index shows the message with empty users and details, no paginator, and the cache unchanged. Export redirects back |
| `UserController.ZeroCountFailsAfterCaching` | app/Http/Controllers/UserController.php:49-92 | with a count in (-10, 0], index shows the error although `details` holds the batch, which stays cached |
| `UserController.Index` | app/Http/Controllers/UserController.php:28-108 | the step-by-step endpoint returns `IndexView` of the old cache and leaves its store. It asks upstream only on a miss. Users are shown only from a batch fetched for this key |
| `UserController.Export` | app/Http/Controllers/UserController.php:119-180 | the step-by-step endpoint returns `ExportResponse` of the old cache and leaves its store. It asks upstream only on a miss. Rows are written only from a batch fetched for this key |
| `UserController.IndexIgnoresExport` | app/Http/Controllers/UserController.php:35 | index renders the same view whatever `export` says |
| `UserController.IndexWithExport` | app/Http/Controllers/UserController.php:24 | as documented, index streams rows exactly when `export` is truthy and there is no error. Otherwise it renders the same view |
| `UserController.IndexWithExportMatchesExport` | app/Http/Controllers/UserController.php:14-25 | the corrected index streams exactly what the export endpoint writes, and fails exactly when export redirects |

## Left out

- HTTP transport (`Http::get`, `app('http')->get`), status codes and JSON decoding are not modelled. The upstream is an abstract total function from URL and query to `Ok(records) | Err`. Because that function is deterministic, the model does not capture that the real API returns different random users on each call.
- Both endpoints receive the same `Api`. This assumes that `app('http')->get` in `export` (line 139) reaches the same HTTP client as `Http::get` in `index` (line 59). Stock Laravel binds no `'http'` container alias, so without a binding made elsewhere in the application `export`'s supplier throws on every miss and `export` redirects back. No such binding is part of this model.
- A `results` field that is present but not a list of user objects is not modelled. If it is not an array at all, `array_slice` throws a `TypeError`, which the `catch` handles. If it is an array of other values (say `[1, 2, 3]`), it slices fine and the failure comes later, outside the `try`: in the Blade view or in the CSV callback (lines 169-175), where Laravel turns the PHP warning into an `ErrorException`: the page fails with a server error and the CSV stream breaks off. In both cases `remember` has already stored the value, because the `isset` test at lines 61 and 141 passed, so every request for that key fails the same way until the entry expires.
- The cache's 300-second time-to-live and expiry are not modelled, since the model has no clock. An entry, once stored, stays.
- Concurrency is not modelled. The code has no single-flight coalescing, and the model is sequential.
- `env()` reads are parameters (`Config.apiUrl`, `Config.resultsCount`). Request parsing, including the `(int)` cast of `page`, is also left to the caller. `index` reads `query()` and `export` reads `input()`. The model takes the parsed page and gender for both.
- `LengthAwarePaginator` link generation, `url('/users')` and the `array_filter` query string are not modelled. The paginator is recorded only as its constructor arguments. Its own clamping of the current page is not modelled.
- The CSV library's quoting and encoding, `SplTempFileObject`, the streamed response and its headers (`text/csv`, `users.csv`) are not modelled. Rows are lists of fields.
- The Blade view `resources/views/user.blade.php` is not part of this model.
- A `gender` request parameter that is an array is not modelled. Gender is absent or a string.
- `Php.CeilDiv`, `Php.CeilString` and `Php.Mod` use unbounded integers. PHP computes `$page / 5` in floating point and, with the default `precision` of 14, prints a float of 10^14 or more in exponent notation (`1.0E+14`). The model is exact, so it departs from PHP for page numbers beyond about 2^53 and for batch numbers of 10^14 or more. 64-bit overflow of `$page - 1` is also not modelled.
- `Php.Ucfirst` is the ASCII, locale-independent `ucfirst` of PHP 8.2 and later. Earlier versions depend on the locale.

## Findings

| source | as written | input that shows it | evidently intended | confidence | as-written member | corrected member |
|---|---|---|---|---|---|---|
| app/Http/Controllers/UserController.php:47-70 | the key groups pages in fixed fives, but the offset divisor is `ceil(resultsCount/10)` | `RANDOM_USER_API_RESULTS=30`: page 4 reads batch 1 at offset 0 and repeats page 1 | pages grouped by the same divisor the offset uses, so each page of a batch is shown once | medium (the default of 50 is consistent); not executed | `Pagination.ThirtyRecordsRepeatPageOne` | `Pagination.CorrectedBatchShownOnce` |
| app/Http/Controllers/UserController.php:24-35 | `index` reads `export` and never uses it. The view's export form submits `export=1` to it | any request with `export=1`: the page is rendered again, and no CSV is produced | stream CSV when `export` is set, as the doc comment at line 24 promises. The comment says "the current batch"; the corrected `index` streams the current page, as the `export` endpoint does, and so departs from the comment's wording | medium; not executed | `UserController.IndexIgnoresExport` | `UserController.IndexWithExportMatchesExport` |

The endpoints `UserController.Index` and `UserController.Export` model the
code as written. The corrected definitions are stated alongside them.
The corrected batching is `Pagination.CorrectedCacheKey`; besides `CorrectedBatchShownOnce`, `CorrectedKeyIffSameBatch` and `CorrectedPagesDistinct` state its properties.
`CorrectedAgreesWhenFivePages` shows that the corrected key coincides with the
code's key under the default configuration. The doc comment at line 24 says
"the current batch". The corrected `index` streams the current page, as the
`export` endpoint does.
