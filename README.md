# Managed-identity token client, modelled in Dafny

This project models the core of a small C# client (`Program.cs`, namespace `EMSIDotNet`). The
client gets access tokens for a user-assigned managed identity from the local instance-metadata
endpoint. It keeps them in a per-resource cache and refreshes them when they are close to expiry.

- **Tokens** (`tokens.dfy`): the `MISToken` value and its `IsExpired` rule. A token is expired
  when its `ExpireOn` is missing or does not parse as an Int32. Otherwise it is expired when
  now + 5 minutes is strictly after the epoch + `ExpireOn` seconds. "Now" is a parameter counted
  in `DateTime` ticks (100 ns) since the Unix epoch, so the comparison is exact.
- **Query** (`query.dfy`): the request query. It holds the fixed `api-version=2018-02-01` and
  `resource` entries and exactly one identity selector, chosen in the order object id, client id,
  resource id. With no selector set, the fetch fails with a configuration error. Values are
  escaped by replacing `/` with `%2f` and then `:` with `%3a`. The model also has a reader
  (`ParseQuery`), so the rendering is proved to round-trip. This reader is idealised: it decodes
  only the two escapes the client emits (`%2f` and `%3a`), while a real query reader decodes
  every `%XX` and may read `+` as a space. The round trip is proved against this reader.
- **Retry** (`retry.dfy`): the backoff slots (`retrySlots`, 20 Fibonacci entries, so `maxRetry` is
  20), the `ShouldRetry` classifier, and the whole bounded retrying fetch as the function
  `Retrieve`, with lemmas about it.
- **Client** (`client.dfy`): the imperative part. `SendWithRetry` is the `while (retry <= maxRetry)`
  loop, proved equal to the attempt run `Attempts` from attempt one. `RetrieveTokenWithRetry`
  builds the query and runs that loop, and is proved equal to `Retrieve`. `TokenClient` has a `cache: map<string, Token>` field and a
  `locked` flag standing in for the semaphore. `GetToken` follows the source's protocol: fast-path
  check, take the lock, check again, fetch, store with overwrite, release.

The network is an input sequence `responses`: `responses[k]` answers the (k+1)-th request, as a
status code plus a parsed body whose `access_token`, `expires_on` and `token_type` may each be
null. `new Random().Next(retry)` is an oracle `picks`: `picks[k]` is the value it returns on the
(k+1)-th retry, and it is constrained to `[0, k+1)`. `Task.Delay` is modelled by recording each
delay, in milliseconds, in the returned `delays`. Each request is recorded by its query string
in `requests`. Exceptions become `Error` values: `ConfigurationError` (the `ArgumentException`),
`FetchFailed(status)` (the `HttpRequestException`), `InvalidToken` and `MaxRetryReached`.

The code makes these choices, and the model keeps them:
- The expiry comparison is strict, so at exact equality the token is not yet expired.
- The jitter index is drawn from `[0, retry)`, not `[0, retry]`.
- Only a null `access_token` is rejected. An empty one gives a token.
- The lock is a single semaphore, not one lock per key.

The code also waits once more after the last retryable response before it gives up. The model
keeps that wait, so exhausting the retries records 20 delays.

## Model

| member | source | states |
|---|---|---|
| Tokens.ParseInt32 | Program.cs:181 | a parsed expiry always lies in the Int32 range, and only a string starting with a digit or sign parses |
| Tokens.DigitsValueOfNatDigits | Program.cs:181 | reading back the decimal spelling of a natural number gives that number |
| Tokens.ParseFormatInt32 | Program.cs:181 | every Int32 written in decimal parses back to itself |
| Tokens.IsExpired | Program.cs:173-190 | the expiry rule: expired when `ExpireOn` is null or not an Int32, else when now + 5 min is strictly after second `ExpireOn`; its contract is stated by `UnreadableExpiryIsExpired`, `ExpiredIff`, `ExpiredStaysExpired` and `FormattedExpiry` |
| Tokens.UnreadableExpiryIsExpired | Program.cs:177-184 | a token whose `ExpireOn` is null or unparsable is expired at every time |
| Tokens.ExpiredIff | Program.cs:185-188 | with a readable expiry, the token is expired exactly when less than five minutes remain; exact equality is not expired |
| Tokens.ExpiredStaysExpired | Program.cs:173-190 | once a token is expired it stays expired at every later time |
| Tokens.FormattedExpiry | Program.cs:181-187 | for `expires_on` spelled as a 32-bit integer e, expired iff now + 5 min is strictly after second e |
| Query.Entries | Program.cs:88-108 | the query entries of a configuration, or none when no selector is set; its contract is stated by `EntriesShape` and `ExactlyOneSelector` |
| Query.EntriesShape | Program.cs:88-108 | the query exists iff some selector is set; it is `api-version`, `resource` and one selector entry chosen by object id, then client id, then resource id |
| Query.ExactlyOneSelector | Program.cs:93-104 | exactly one entry of the query has a selector key, and no key occurs twice |
| Query.Escape | Program.cs:110 | a value with `/` replaced by `%2f` and then `:` by `%3a`; its contract is stated by `EscapeRemovesReserved`, `EscapeKeepsAbsent` and `UnescapeEscape` |
| Query.EscapeRemovesReserved | Program.cs:110 | no escaped value contains `/` or `:` |
| Query.EscapeKeepsAbsent | Program.cs:110 | escaping adds only the characters of `%2f` and `%3a` |
| Query.UnescapeEscape | Program.cs:110 | for values without `%`, the endpoint's unescaping undoes the escaping |
| Query.SplitJoin | Program.cs:110 | splitting the `&`-joined parts on `&` gives the parts back when none contains `&` |
| Query.QueryString | Program.cs:110 | the `key=escaped value` entries joined with `&`; its contract is stated by `QueryRoundTrip` |
| Query.QueryRoundTrip | Program.cs:110 | a non-empty query whose keys lack `=` and `&` and whose values lack `&` and `%` is read back as exactly its pairs, in order |
| Query.ResourceIdQueryRoundTrip | Program.cs:102-110 | a configuration with only a resource id, where the resource and the id lack `&` and `%`, has a query that reads back as exactly its entries |
| Retry.RetrySlotsShape | Program.cs:15-16 | 20 positive slots, each the sum of the two before it, never decreasing, so `maxRetry` is 20 |
| Retry.SlotsNondecreasing | Program.cs:15 | a later slot is never shorter than an earlier one, and every slot is at least one second |
| Retry.ShouldRetry | Program.cs:158-161 | retried statuses are 429, 404 and 500..599; `RetryableStatuses` and `FirstResponseRetried` state what follows from it |
| Retry.RetryableStatuses | Program.cs:158-161 | a retried status lies in 404..599 and is never 200 |
| Retry.FirstResponseRetried | Program.cs:119-131 | the first response is followed by a wait and a second request exactly when its status is retryable; otherwise its classification is the result |
| Retry.Classify | Program.cs:130-151 | the outcome of a response that is not retried; its contract is stated by `ClassifyMeaning` |
| Retry.ClassifyMeaning | Program.cs:130-151 | a non-retried response gives a token iff status 200 with an access token, with the token's fields copied from the body; InvalidToken iff 200 without one; FetchFailed iff not 200 |
| Retry.Delay | Program.cs:126-127 | the wait after attempt `retry`, `retrySlots[Next(retry)]` seconds in milliseconds; its contract is stated by `DelayBound` |
| Retry.DelayBound | Program.cs:126-127 | the jitter index is a valid slot, and each wait is between 1 s and the slot of its attempt |
| Retry.Attempts | Program.cs:113-155 | the run of attempts from attempt `retry` on: result, recorded waits and sent requests; its contract is stated by the `Attempts…` lemmas below |
| Retry.AttemptsStopAt | Program.cs:113-151 | when the first non-retried response is at attempt `stop`, the run ends with its classification after one request per attempt and one wait per earlier attempt |
| Retry.AttemptsExhaust | Program.cs:113-155 | when every remaining response is retried, the run sends one request and one wait per attempt and ends in MaxRetryReached |
| Retry.AttemptsBounds | Program.cs:113-129 | from any attempt, at most the remaining attempts are sent, all with the same query, with as many waits as requests exactly when the retries ran out and one fewer otherwise |
| Retry.AttemptsWaits | Program.cs:123-131 | each wait follows a retried response and equals the slot the random source picked for that attempt |
| Retry.AttemptsEnd | Program.cs:113-151 | a run that did not run out of retries ends at a response that is not retryable, with that response's classification |
| Retry.AttemptsFromFirst | Program.cs:113-155 | a fetch past the configuration check sends between 1 and 20 requests and ends by exhausting the retries or by the classification of its last response |
| Retry.AttemptsDelaysBounded | Program.cs:123-128 | the k-th wait follows a retried response and lasts at most slot k seconds |
| Retry.AttemptsBounded | Program.cs:113-155 | a fetch past the configuration check satisfies `Bounded`: at most 20 requests with one query, one wait of at most slot k seconds after each retried k-th response, and an end that is either 20 requests and 20 waits or the classification of the last response |
| Retry.Retrieve | Program.cs:84-155 | the whole fetch: the configuration error when no selector is set, else the attempt run of the query from attempt one; its contract is stated by `RetrieveBounds` and the lemmas after it |
| Retry.RetrieveBounds | Program.cs:84-155 | every fetch satisfies `Bounded`, and sends no request exactly when the configuration is rejected |
| Retry.NoSelectorNoRequest | Program.cs:105-108 | with no selector set the fetch fails with the configuration error, having sent nothing and waited nothing |
| Retry.AllRetryableExhausts | Program.cs:113-155 | 20 retryable responses in a row give MaxRetryReached after 20 requests and 20 waits |
| Retry.StopWaits | Program.cs:113-151 | from attempt one, the first non-retried response i ends the run with its classification after i + 1 requests and i waits, the k-th of the slot picked on the k-th retry |
| Retry.FirstStopDecides | Program.cs:113-151 | the first non-retried response i decides the outcome after exactly i + 1 requests and i waits, the k-th wait of `retrySlots[picks[k]]` seconds |
| Retry.ThreeResponseExample | Program.cs:113-151 | responses 429, 500, then 200 with a token give two waits, three requests and the third response's token |
| Client.SendWithRetry | Program.cs:113-155 | the retry loop records exactly the result, waits and requests of the attempt run `Attempts` |
| Client.TokenClient.constructor | Program.cs:17-29 | a new client has an empty cache, a free lock, no object or client id, and the default resource id |
| Client.TokenClient.RetrieveTokenWithRetry | Program.cs:84-156 | builds the query by selector precedence, then gives exactly the run `Retrieve` describes |
| Client.TokenClient.Acquire | Program.cs:62 | taking the free lock leaves it held |
| Client.TokenClient.Release | Program.cs:78-81 | releasing the held lock leaves it free |
| Client.TokenClient.RefreshLocked | Program.cs:65-76 | with the lock held: a fresh cached token is returned with no request; otherwise the fetch runs, and only a success is stored under the key |
| Client.TokenClient.GetToken | Program.cs:51-82 | a fresh cached token is returned with no request and no change; otherwise the fetch's outcome is returned, a success overwrites only that key, a failure leaves the cache unchanged, the lock is free afterwards, and no other key changes |
| Client.DefaultsPlain | Program.cs:22-24 | the default resource id and the program's resource contain neither `&` nor `%` |
| Client.DefaultQueryRoundTrip | Program.cs:88-110 | a newly created client asking for `https://management.azure.com/` sends a query that reads back as exactly its entries |
| Client.RepeatedCalls | Program.cs:35-37 | two calls for one resource, each with its own responses: each call stores a token it hands out and leaves the cache alone on failure; once a token is handed out and is still fresh, the next call sends no request, returns the same token and leaves the cache as it was; the lock is free afterwards and only the cache and the lock may change, so further calls can follow |

## Left out

- `Main` (the console demo loop): it only prints. `RepeatedCalls` states what its repeated calls rely on.
- The HTTP transport (`HttpClient`, the request message, the `Metadata: true` header) and `UriBuilder`: external I/O. The model records each request by its query string only.
- An exception thrown by `SendAsync` (transport failure or cancellation through the `CancellationToken`): it only propagates out of the fetch and the lock is released. Because every response is an abstract status and body, the model has no such case.
- JSON deserialisation of the body: a foreign library. The body is an already-parsed record, so malformed JSON and non-string fields are not modelled.
- `DateTime.UtcNow`: a clock. "Now" is a parameter in ticks since the Unix epoch.
- Tokens.ParseInt32: does not model the whitespace, culture and number-style rules of `Int32.TryParse`. It accepts an optional sign followed by ASCII digits whose value fits in 32 bits.
- `new Random()` and `Task.Delay`: nondeterminism and real time. They are the `picks` oracle and the recorded `delays`.
- The concurrency of the static `SemaphoreSlim`, async suspension and interleavings: the model is sequential. `locked` is a field of the client, while the source's semaphore is static and shared by all instances. Only the order of check, lock, re-check, fetch, store and release is modelled.
- Exception message texts: error values carry only the status code or the retry count.
- The order of the query entries is the `Dictionary` enumeration order, which is insertion order when nothing is removed.
