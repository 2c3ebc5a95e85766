# RaftLabs ExternalUserService in Dafny

A model of the `RaftLabs.ExternalUserService` library: a client for a
paginated users API (`reqres.in`-style) and a service that caches what the
client returns and aggregates all pages into one list.

Modules and files:

- `prelude.dfy` (`Prelude`): `Option` for nullable references, `Result` for
  thrown exceptions.
- `text.dfy` (`Text`): .NET `String.Trim` (`TrimEnd` after `TrimStart`), with
  `Char.IsWhiteSpace`, and the decimal formatting of an `int` that the string
  interpolations use, with the parse that undoes it.
- `models.dfy` (`Models`): `User` and its computed `FullName`, the envelopes
  `ApiResponse<T>`, `UserListResponse` and `Support`, and `ExternalApiOptions`
  with its defaults: 30 s timeout, 3 retries, 10 min cache expiration.
- `client.dfy` (`Client`): `UserApiClient`. The HTTP stack is a function
  from the relative request path to the outcome of the GET. The outcome is a
  response with a status code and a decoded or malformed body, an
  `HttpRequestException`, or a `TaskCanceledException`. Each fetch method is
  a pure function from that to a value, a null, an `InvalidOperationException`
  or a `TimeoutException`.
- `retry.dfy` (`RetryPolicy`): `GetRetryPolicy`. It covers the transient
  predicate, the literal three retries, the 2^k-second backoff, and the run
  of attempts one request makes.
- `service.dfy` (`Service`): `ExternalUserService` as a class. Its `cache`
  field is a `map` from key to entry, each entry holding a value and an
  absolute expiration time. The API client is two fixed functions given at
  construction. A ghost `calls` log records every call made to the client.
  The do-while aggregation in `GetAllUsers` is a `while` loop proved equal to
  the recursive `AllUsersFrom` and `CallsFrom`.

The service's client can be the modelled `UserApiClient`. To wire it in, pass
`id => Client.GetUserById(http, id)` and `p => Client.GetUsersPage(http, p)`,
where `http` gives the outcome that `RetryPolicy.Execute` leaves for each path.

Time is an explicit `now` argument, in seconds. A cache entry written at
`now` expires at `now + CacheExpirationMinutes * 60`. From that instant on it
is a miss, as `MemoryCache` treats an expiration time `<= now` as expired.

Two behaviours of the code are kept as written:

- A `TaskCanceledException` becomes a `TimeoutException`, whether it came
  from a time-out or from the caller's cancellation. There is no separate
  cancelled outcome.
- The retry count is the literal 3. `MaxRetryAttempts` is never read.

## Model

| member | source | states |
|---|---|---|
| `Text.Trim` | src/RaftLabs.ExternalUserService/Models/User.cs:19 | the trimmed string has no white space at either end, and it is empty exactly when the input is all white space |
| `Text.TrimOfPadded` | src/RaftLabs.ExternalUserService/Models/User.cs:19 | trimming p + m + q, with p and q all white space and m free of outer white space, gives exactly m, so interior white space is kept |
| `Text.TrimIsSlice` | src/RaftLabs.ExternalUserService/Models/User.cs:19 | the trimmed string is a contiguous slice of the input, and everything removed before and after it is white space |
| `Text.IntToStringInjective` | src/RaftLabs.ExternalUserService/Services/ExternalUserService.cs:30 | two ints format to the same decimal string exactly when they are equal |
| `Text.IntToStringRoundTrip` | src/RaftLabs.ExternalUserService/Services/ExternalUserService.cs:30 | IntToString, the decimal formatting used in keys and paths, is undone by parsing; it starts with '-' exactly for a negative number, and the rest is digits |
| `Models.FullName` | src/RaftLabs.ExternalUserService/Models/User.cs:19 | the full name has no leading or trailing white space and is no longer than first + " " + last |
| `Models.FullNameOfCleanNames` | src/RaftLabs.ExternalUserService/Models/User.cs:19 | two non-empty names without outer white space give exactly FirstName + " " + LastName |
| `Models.FullNameWithoutLastName` | src/RaftLabs.ExternalUserService/Models/User.cs:19 | an empty last name gives the trimmed first name, with no dangling space |
| `Models.FullNameWithoutFirstName` | src/RaftLabs.ExternalUserService/Models/User.cs:19 | an empty first name gives the trimmed last name, with no leading space |
| `Models.DefaultUserFullName` | src/RaftLabs.ExternalUserService/Models/User.cs:7-19 | a default-constructed user, all strings empty, has the full name "" |
| `Models.FullNameExample` | src/RaftLabs.ExternalUserService/Models/User.cs:19 | "Ann" and "Lee" give "Ann Lee" |
| `Models.FullNameKeepsInnerWhiteSpace` | src/RaftLabs.ExternalUserService/Models/User.cs:19 | " Mary  Ann" and "Lee " give "Mary  Ann Lee": the ends are trimmed and the interior double space is kept |
| `Models.FullNameIgnoresOtherFields` | src/RaftLabs.ExternalUserService/Models/User.cs:19 | users with the same first and last name have the same full name, whatever their id, email and avatar |
| `Client.UserPathCarriesId` | src/RaftLabs.ExternalUserService/Clients/UserApiClient.cs:42 | UserPath(id) is "users/" followed by text that parses back to id |
| `Client.PagePathCarriesPage` | src/RaftLabs.ExternalUserService/Clients/UserApiClient.cs:81 | PagePath(page) is "users?page=" followed by text that parses back to page |
| `Client.PathsAreDistinct` | src/RaftLabs.ExternalUserService/Clients/UserApiClient.cs:42-81 | "users/" + id and "users?page=" + page are injective in their argument and never equal to each other |
| `Client.GetUserById` | src/RaftLabs.ExternalUserService/Clients/UserApiClient.cs:36-73 | the result is null exactly for a 404, or for a 2xx whose envelope or data is null. A 2xx whose decoded envelope carries data returns that data, and a user is returned only from such a 2xx. A failure is a time-out exactly when the request was cancelled. A transport error, or a non-2xx status other than 404, raises InvalidOperation with a message starting "Failed to fetch user {id}" |
| `Client.GetUsersPage` | src/RaftLabs.ExternalUserService/Clients/UserApiClient.cs:75-108 | the call succeeds exactly for a 2xx with a well-formed body, and then returns the decoded envelope unchanged. A failure is a time-out exactly when the request was cancelled. Every non-2xx status, 404 included, and every transport error raises InvalidOperation with a message starting "Failed to fetch users page {page}" |
| `Client.MalformedUserIsDeserializeFailure` | src/RaftLabs.ExternalUserService/Clients/UserApiClient.cs:68-72 | a malformed body on a 2xx gives InvalidOperation "Failed to deserialize response for user {id}" |
| `Client.MalformedPageIsDeserializeFailure` | src/RaftLabs.ExternalUserService/Clients/UserApiClient.cs:103-107 | a malformed body on a 2xx gives InvalidOperation "Failed to deserialize response for users page {page}" |
| `Client.NotFoundDiffersByEndpoint` | src/RaftLabs.ExternalUserService/Clients/UserApiClient.cs:44-97 | a 404 is null for the single-user fetch but an InvalidOperation for the page fetch |
| `RetryPolicy.RunFrom` | src/RaftLabs.ExternalUserService/Extensions/ServiceCollectionExtensions.cs:45-48 | one request makes between 1 and 4 attempts. Every attempt but the last failed transiently (HttpRequestException, status >= 500, or 408). The run ends on a non-transient outcome or after 3 retries. The sleep before retry k is 2^k seconds. The caller sees the last attempt's outcome |
| `RetryPolicy.TransientOutcomes` | src/RaftLabs.ExternalUserService/Extensions/ServiceCollectionExtensions.cs:45 | IsTransient holds for a failed request and for a response exactly when its status is >= 500 or 408; it never holds for a cancellation, a 2xx, a 404 or a 429 |
| `RetryPolicy.Execute` | src/RaftLabs.ExternalUserService/Extensions/ServiceCollectionExtensions.cs:44-55 | the whole policy makes 1 to 4 attempts, sleeps 2^k s before retry k, retries only after transient outcomes, stops on a non-transient one or after 4 attempts, and hands back the last attempt's outcome |
| `RetryPolicy.BackoffSchedule` | src/RaftLabs.ExternalUserService/Extensions/ServiceCollectionExtensions.cs:47-48 | the three sleeps are 2 s, 4 s and 8 s |
| `RetryPolicy.BackoffDoubles` | src/RaftLabs.ExternalUserService/Extensions/ServiceCollectionExtensions.cs:48 | each sleep is twice the previous one |
| `RetryPolicy.BackoffIncreasing` | src/RaftLabs.ExternalUserService/Extensions/ServiceCollectionExtensions.cs:48 | the sleeps strictly increase with the retry number |
| `RetryPolicy.TotalOfSchedule` | src/RaftLabs.ExternalUserService/Extensions/ServiceCollectionExtensions.cs:48 | the sleeps before retries start+1 .. start+n add up to 2^(start+n+1) - 2^(start+1) seconds |
| `RetryPolicy.ExecuteBounds` | src/RaftLabs.ExternalUserService/Extensions/ServiceCollectionExtensions.cs:47-48 | any request makes at most 4 attempts and sleeps at most 14 s in total |
| `RetryPolicy.NonTransientIsNotRetried` | src/RaftLabs.ExternalUserService/Extensions/ServiceCollectionExtensions.cs:45 | a non-transient first outcome (404 or another 4xx except 408, 2xx, cancellation) ends the request after one attempt, with no sleep |
| `Service.CacheKeysAreDistinct` | src/RaftLabs.ExternalUserService/Services/ExternalUserService.cs:30-95 | "user_"+a = "user_"+b exactly when a = b, and the same for "users_page_". No user key equals a page key or "all_users", and no page key equals "all_users" |
| `Service.KeyKinds` | src/RaftLabs.ExternalUserService/Services/ExternalUserService.cs:30-95 | user keys start with "user_"; page keys and "all_users" do not |
| `Service.CachedAfterWrite` | src/RaftLabs.ExternalUserService/Services/ExternalUserService.cs:32-111 | right after an entry is written, a lookup of its key hits with the written value, if that value has the type asked for, until the expiration time, and misses from then on |
| `Service.CachedAfterOtherWrite` | src/RaftLabs.ExternalUserService/Services/ExternalUserService.cs:32-111 | writing one key leaves the user and list lookups of every other key unchanged |
| `Service.CachedExpiry` | src/RaftLabs.ExternalUserService/Services/ExternalUserService.cs:42-47 | an entry whose expiration time is at or before now is a miss for both lookups, and a hit now is the same hit at every earlier time |
| `Service.LiveEntriesAreHits` | src/RaftLabs.ExternalUserService/Services/ExternalUserService.cs:32-101 | in a well-typed cache, every live entry under a user, page or all-users key is a hit for the lookup made with that key |
| `Service.CallsFrom` | src/RaftLabs.ExternalUserService/Services/ExternalUserService.cs:64-78 | the loop makes at least one page call, on consecutive pages from the start page, so no page is fetched twice, and it never goes past the bound on totalPages |
| `Service.AggregateExtendsFirstPage` | src/RaftLabs.ExternalUserService/Services/ExternalUserService.cs:64-78 | AllUsersFrom fails with the first page's error when that page fails, and otherwise only with the error of some later page; a successful aggregate starts with the first page's data |
| `Service.PageDataOfResponse` | src/RaftLabs.ExternalUserService/Services/ExternalUserService.cs:71-73 | PageData is the response's list when both the response and its data are non-null. It is empty exactly when one of them is null or the list is empty. A default response contributes nothing |
| `Service.NextPageFetchedExactly` | src/RaftLabs.ExternalUserService/Services/ExternalUserService.cs:76-78 | Continues, the do-while condition: the loop fetches another page exactly when the current page succeeded with a non-null response whose totalPages is at least page + 1, and that next fetch is page + 1 |
| `Service.DefaultResponseEndsAggregation` | src/RaftLabs.ExternalUserService/Models/UserListResponse.cs:10-24 | a default response on page 1, with zero totalPages and empty data, ends the aggregation after one fetch, with an empty list |
| `Service.AggregationIsConcatenation` | src/RaftLabs.ExternalUserService/Services/ExternalUserService.cs:64-78 | the aggregate succeeds exactly when every fetched page succeeds, and is then the concatenation of the fetched pages' data in page order. Otherwise it carries the error of the last page fetched |
| `Service.UniformPages` | src/RaftLabs.ExternalUserService/Services/ExternalUserService.cs:64-78 | when pages 1..N (N >= 1) all report totalPages = N and none is null, exactly pages 1..N are fetched, in increasing order, and the result is their data concatenated |
| `Service.AggregationStops` | src/RaftLabs.ExternalUserService/Services/ExternalUserService.cs:68-78 | after a failed or null page, or one whose totalPages does not exceed its number, no further page is fetched. On page 1 with totalPages <= 1 this is the one fetch the do-while always makes |
| `Service.NullDataStillContinues` | src/RaftLabs.ExternalUserService/Services/ExternalUserService.cs:71-78 | a page with null data contributes nothing, and the loop still goes on to the next page |
| `Service.ExternalUserService.constructor` | src/RaftLabs.ExternalUserService/Services/ExternalUserService.cs:16-26 | the service starts with an empty cache and no calls made. Its time-to-live is CacheExpirationMinutes in seconds |
| `Service.ExternalUserService.GetUserById` | src/RaftLabs.ExternalUserService/Services/ExternalUserService.cs:28-52 | a hit on "user_"+id returns the stored user, makes no call and changes nothing. A miss calls the client once and returns its answer. Only a non-null user is stored, under "user_"+id with expiry now + TTL. A null result or an error leaves the cache as it was |
| `Service.ExternalUserService.GetUsersPage` | src/RaftLabs.ExternalUserService/Services/ExternalUserService.cs:93-115 | a hit on "users_page_"+page returns the stored list and makes no call. A miss calls the client once. A null response or null data becomes an empty list, which is stored like any other list. An error stores nothing |
| `Service.ExternalUserService.GetAllUsers` | src/RaftLabs.ExternalUserService/Services/ExternalUserService.cs:54-91 | a hit on "all_users" returns the stored list and makes no call. A miss makes exactly the calls CallsFrom(1) gives and returns AllUsersFrom(1). Only "all_users" is then written, and only on success; no page key is ever written |
| `Service.DefaultService` | src/RaftLabs.ExternalUserService/Configuration/ExternalApiOptions.cs:10 | a service built with the default options starts empty and keeps entries for 600 s (10 minutes) |
| `Service.RepeatedLookupHitsCache` | tests/RaftLabs.ExternalUserService.Tests/Services/ExternalUserServiceTests.cs:61-85 | two lookups of a found user within the expiration window return the same user, with one client call in all |
| `Service.AbsentUserIsRefetched` | src/RaftLabs.ExternalUserService/Services/ExternalUserService.cs:38-51 | two lookups of a user the client reports as absent both return null, both call the client, and leave the cache unchanged |
| `Service.FailedPageIsRefetched` | src/RaftLabs.ExternalUserService/Services/ExternalUserService.cs:103-111 | when the client fails for a page, nothing is cached and a second call reaches the client again |
| `Service.TwoPageAggregation` | tests/RaftLabs.ExternalUserService.Tests/Services/ExternalUserServiceTests.cs:88-126 | with two pages that both report totalPages = 2, pages 1 and 2 are fetched once each, in order. The result is page 1's users followed by page 2's. A second call within the window returns the same list without any call |

## Left out

- Dependency-injection registration (`AddExternalUserService`), the console
  demo and all logging: glue with no effect on results.
- HTTP and JSON: `HttpClient`, setting the base address and the timeout,
  `EnsureSuccessStatusCode` internals and `System.Text.Json`. This includes
  case-insensitive field matching and the `first_name`, `per_page`,
  `total_pages` renames. The outcome of a GET and the decoded envelope are
  abstract inputs.
- The message of a status failure: the model uses "Response status code does
  not indicate success: {code}." and drops the reason phrase .NET adds.
- Number formatting: ints are formatted as under the invariant culture.
- Polly's machinery: only the predicate, the count, the backoff and the
  sequence of attempts are modelled, not scheduling or the `onRetry` console
  line. `Math.Pow` is floating point; the model uses the exact integer 2^k.
  The time the sleeps take is not checked against the 30 s `HttpClient`
  timeout.
- Concurrency and async: every call is one sequential step.
  `CancellationToken` appears only as the `Canceled` outcome. Concurrent
  misses on the same key are not modelled.
- `IMemoryCache` internals: eviction, size limits and thread safety. An
  expired entry stays in the map and reads as a miss, where `MemoryCache`
  would also remove it on access; the difference is not observable here.
- Service.ExternalUserService.constructor: requires CacheExpirationMinutes > 0,
  because `MemoryCache` rejects a relative expiration that is not positive.
  The resulting exception path is not modelled.
- Service.ExternalUserService.GetAllUsers: requires a bound on the totalPages
  that every page reports. Without one the do-while need not terminate, and
  the model does not describe a source that never stops.
- 32-bit ints: ids, page numbers and totalPages are unbounded integers. The
  wrap-around of `page++` when totalPages is `int.MaxValue` is not modelled.
- The API client is a pair of fixed functions, so it answers the same
  argument the same way every time. A remote side that changes between calls
  is not modelled.
