# ProxyCache core, modelled in Dafny

ProxyCache is a caching reverse proxy written in Go. Its core has three pieces, and this project models each one:

- **Token bucket** (`token_bucket.go`): an admission controller. A new bucket starts full. A take either consumes exactly one token or denies and changes nothing. A background ticker adds `tokensPerInterval` on each tick and clamps at `maxTokens`. `stop` closes the stop channel and ends refilling.
- **Request fingerprint and cache adapter** (`redis_cache.go`):
  - `getHashKey` emits one `name=value` token per query value, sorts the tokens byte-wise and joins them with `&`. It builds `METHOD_PATH?QUERY` from that, hashes it with SHA-256 and hex-encodes the digest.
  - `getCachedResponse` and `setCachedResponse` guard a Redis get and set. An empty key, a nil value or a missing client is an error. An expiration of 0 becomes 24 hours.
- **Cache-aside handler** (`server.go`): `RootHandler` first checks its arguments, then fingerprints the request and reads the cache. A hit returns the bytes verbatim. A miss forwards the request to the single origin URL, reads the body, writes it to the cache and returns it. `isValidPort` checks the listening port.

Modelling choices:

- The model is functional. The bucket is an immutable `Bucket` value, and each atomic step (take, tick, stop) is a pure transition. A `running` flag stands for the stop channel still being open.
- The Redis server is an abstract map from keys to `Entry(value, expiration)`.
- Each network round trip is a parameter:
  - `fault` for a store call;
  - `origin` (`Fetched(body) | ForwardError | ReadError`) for forwarding and reading the body.
- SHA-256 is a function parameter returning exactly 32 bytes (`Fingerprint.Digest`).
- A Go `range` over a map visits keys in an unspecified order. That order is an explicit parameter constrained by `Http.IsIterationOrder`, and the properties hold for every such order.
- The handler returns its response, the cache afterwards, and the ordered list of its observable effects: `CacheGet`, `Forward`, `CacheSet`.
- Go's `time.Duration` values are integers in nanoseconds.
- Strings are sequences of Unicode scalar values. For UTF-8 text, code-point order is the same as byte order, so on valid UTF-8 text `StringOrder.Below` is the byte-wise order that Go's `sort.Strings` uses. Text that is not valid UTF-8 is not modelled (see Left out).

Where the intended design and the code differ, the model follows the code:

- **No throttling.** The handler performs no admission check. `main.go:67` passes the bucket to `startServer`, but `startServer` and `RootHandler` take no bucket. The model never composes the bucket with the handler.
- **Read errors count as misses.** Any cache-read error is treated as a miss and the request is forwarded. The adapter model keeps `KeyMissing` and `StoreUnavailable` apart (`RedisCache.MissingIsNotUnavailable`), but the handler treats both the same way (`Server.StoreFailureForwards`).
- **Empty bodies are cached but never served.** An empty origin body is non-nil, so it is written to the cache. A later read returns zero bytes, which is not a hit (`Server.EmptyBodyIsNeverAHit`).
- **The forwarded URL ignores the inbound request.** The outbound request goes to `redirectURL` exactly, without the inbound path or query.
- **No inbound headers are forwarded.** The handler forwards with `Server.ForwardRequestAsWritten`, whose outbound request carries no headers (see Findings). The corrected `Server.ForwardRequest` is stated and proved on its own, but the handler does not use it.

## Model

| member | source | states |
|---|---|---|
| TokenBucket.NewTokenBucket | token_bucket.go:17-27 | a new bucket holds exactly `maxTokens` tokens, copies rate and interval from its arguments, is not stopped, and satisfies `0 <= tokens <= maxTokens` when the capacity is non-negative |
| TokenBucket.TakeToken | token_bucket.go:54-63 | admits iff `tokens > 0`; an admission lowers `tokens` by exactly one and changes nothing else; a denial leaves the whole state unchanged; the capacity bound is preserved |
| TokenBucket.Refill | token_bucket.go:37-42 | a tick sets `tokens` to `min(tokens + tokensPerInterval, maxTokens)`, changes no other field, and keeps `0 <= tokens <= maxTokens` when the rate is non-negative |
| TokenBucket.Tick | token_bucket.go:34-46 | on a running bucket a tick raises `tokens` by `min(rate, maxTokens - tokens)`; on a stopped bucket it changes nothing |
| TokenBucket.Stop | token_bucket.go:49-51 | stopping is allowed only while running (a second close panics), turns refilling off for good, and keeps the token count and configuration |
| TokenBucket.Step | token_bucket.go:49-51 | a sequence of events panics exactly at a stop of an already stopped bucket |
| TokenBucket.RunPreservesInvariant | token_bucket.go:29-63 | every state reachable by any interleaving of takes, ticks and one stop keeps `0 <= tokens <= maxTokens` and the unchanged `maxTokens`, `tokensPerInterval` and `refillInterval` |
| TokenBucket.StoppedNeverRefills | token_bucket.go:43-51 | after stop, no sequence of ticks and takes ever raises `tokens`; it falls by at most one per take, and the bucket stays stopped |
| TokenBucket.TakeManySucceeds | token_bucket.go:54-63 | with at least `n` tokens, `n` consecutive takes all succeed and leave exactly `tokens - n` |
| TokenBucket.FreshBucketAdmitsCapacity | token_bucket.go:17-63 | from a new bucket of capacity C, N <= C takes all succeed and leave C - N; after C takes the next take is denied and changes nothing |
| TokenBucket.RefillAsWritten | token_bucket.go:38-41 | the refill tick in 64-bit arithmetic, as written: it changes only `tokens` |
| TokenBucket.RefillAsWrittenAgrees | token_bucket.go:38-41 | when the sum fits in 64 bits, the written refill equals the clamped refill |
| TokenBucket.RefillAsWrittenWrapsNegative | token_bucket.go:38-41 | a full bucket of 100 with rate 2^63 - 1 wraps to a negative count under the written refill, where the clamped refill stays at 100 |
| StringOrder.Insert | redis_cache.go:64 | inserting into a sorted sequence keeps it sorted and adds exactly one occurrence of the element |
| StringOrder.Sort | redis_cache.go:64 | the sort returns a byte-wise sorted permutation of the tokens |
| StringOrder.SortedUnique | redis_cache.go:64 | two sorted sequences with the same elements, counting repeats, are equal |
| StringOrder.SortPermutationInvariant | redis_cache.go:64 | sorting any two permutations of the same tokens gives the same sequence |
| Hex.Encode | redis_cache.go:73 | the encoding has two characters per byte, all in `[0-9a-f]` |
| Hex.DecodeEncode | redis_cache.go:73 | decoding the hex encoding gives back the bytes |
| Hex.EncodeInjective | redis_cache.go:73 | distinct byte strings have distinct hex encodings |
| Http.IterationOrdersPermute | redis_cache.go:59 | any two orders in which a map's keys can be visited are permutations of each other |
| Fingerprint.KeyTokens | redis_cache.go:60-62 | one token `name=value` per value of a parameter, repeated values included, at the value's position |
| Fingerprint.KeyTokensPermutation | redis_cache.go:60-62 | reordering a parameter's values permutes its tokens |
| Fingerprint.FlattenPermutation | redis_cache.go:59-63 | visiting the parameters in another order, or their values in another order, gives the same multiset of tokens |
| Fingerprint.FlattenMembership | redis_cache.go:57-63 | a string is a token iff it is `name=value` for some parameter name and one of that name's values |
| Fingerprint.QueryStringIsSortedJoin | redis_cache.go:64-65 | the query string is the `&`-join of the unique byte-wise sorted arrangement of the tokens |
| Fingerprint.GetHashKey | redis_cache.go:46-77 | the cache key is 64 lower-case hex characters that decode to the 32-byte digest of the raw key `METHOD_PATH?QUERY` |
| Fingerprint.HashKeyOrderInsensitive | redis_cache.go:57-73 | requests with the same method, path and parameters share the raw key and the cache key, whatever the order of parameters and values, map iteration, headers or body |
| Fingerprint.HashKeyDeterminedByRawKey | redis_cache.go:71-73 | equal raw keys give equal cache keys |
| Fingerprint.RawKeyNotInjective | redis_cache.go:61-68 | the raw key confuses name `a=b` with value `c` and name `a` with value `b=c`, so distinct requests share a cache key |
| RedisCache.GetCachedResponse | redis_cache.go:81-96 | a read fails with no client, then with an empty key, then on a failed round trip; it succeeds iff the key is stored, and then returns the stored bytes |
| RedisCache.EffectiveExpiration | redis_cache.go:106-108 | an expiration of 0 becomes the 24-hour default; any other value is used as given |
| RedisCache.SetCachedResponse | redis_cache.go:98-114 | a write fails with no client, with an empty key or nil value, or on a failed round trip, and every failure leaves the store unchanged; a success stores the bytes under exactly that key with the effective expiration |
| RedisCache.GetGuardsIgnoreStore | redis_cache.go:82-88 | with no client or an empty key, a read fails without depending on the store's contents |
| RedisCache.SetThenGet | redis_cache.go:90-113 | a successful write followed by a read of the same key returns the written bytes |
| RedisCache.SetLeavesOtherKeys | redis_cache.go:110 | a write does not change what a read of any other key returns |
| RedisCache.MissingIsNotUnavailable | redis_cache.go:90-93 | at the adapter, an absent key and a failed round trip are different errors |
| Server.IsValidPort | server.go:31-33 | a port is valid iff it is in 1..65535 |
| Server.AddValuesAppends | server.go:86-88 | adding a header's values one by one appends them all, in order, under its name |
| Server.AddAllCopies | server.go:85-89 | running the copy loop over every header of a source, onto headers that hold none of those names, adds exactly the source headers that carry values |
| Server.ForwardRequestAsWritten | server.go:78-89 | as written, the outbound request keeps the inbound method and body and goes to `redirectURL` |
| Server.ForwardRequestAsWrittenDropsHeaders | server.go:79-89 | as written, an inbound `Accept` header is absent from the outbound request, which carries no headers at all |
| Server.ForwardRequest | server.go:78-89 | the outbound request carries the inbound method, body and every header value, and goes to `redirectURL` |
| Server.ForwardIgnoresPathAndQuery | server.go:79 | two requests that differ only in path and query are forwarded identically, both as written and as corrected |
| Server.RootHandler | server.go:35-76 | a nil cache or empty origin URL answers 500 with no effects; otherwise the hash key is read first; a read with no error and at least one byte is returned verbatim with no forward and no write; any other read forwards the request as written (inbound method and body, no inbound headers, to the origin URL); a failed forward or body read answers 500 without writing; a fetched body is written under the same key with the default expiration and returned |
| Server.ResponseIgnoresWriteFailure | server.go:71-73 | the client receives the same response whether or not the cache write fails |
| Server.StoreFailureForwards | server.go:47-55 | a failed cache read is not reported; the request is forwarded |
| Server.SecondEquivalentRequestHits | server.go:44-73 | after a miss that fetches a non-empty body, a request with the same method, path and parameters in any order is answered with that body from the cache, with a single cache read and no forward |
| Server.SwappedValuesHit | server.go:44-52 | a repeated parameter's values in one order (`/a?x=2&x=1`) populate the entry that the other order (`/a?x=1&x=2`) is then served from |
| Server.EmptyBodyIsNeverAHit | server.go:48 | an empty fetched body is stored, but the same request afterwards is forwarded again |

## Left out

- **SHA-256.** The digest is a function parameter (`sha256`) that returns 32 bytes. The `[]byte(rawKey)` conversion is folded into it. No injectivity of the digest is claimed.
- **Query and path decoding.** `req.URL.Query()` parsing and path decoding are not modelled. The request carries the already-decoded path and parameter map.
- **Redis connection.** The Redis client, `connectToRedis` and `Ping` are network I/O; the store is an abstract map.
- **Time and expiry.** Entries keep their expiration, but time never passes, so nothing expires. How go-redis treats negative expirations is not modelled.
- **Failed writes.** A set whose round trip fails is modelled as leaving the store unchanged. Over a real network the write might still have been applied.
- **Concurrency.** The mutex, the ticker goroutine and the channel close are represented by atomic steps. In Go, a tick that is ready at the same moment as the stop signal may still be applied. The model takes the refill loop's return as the point where the bucket stops.
- **Refill interval.** `time.NewTicker` panics on a non-positive interval; this is not modelled.
- **Go integer width.** Outside the refill finding below, Go's 64-bit `int` and `time.Duration` are modelled as unbounded integers. No other arithmetic in the core can overflow: a take only decrements a positive count, and the default expiration of 8.64e13 ns fits in 64 bits.
- **Logging.** `LogError` calls `Fatalf` whenever its error is non-nil (`logger.go:58-59`), so in practice the forward-failure and read-failure branches end the process. The model follows the handler's written intent for those branches, which is to answer 500.
- **HTTP machinery.** `http.NewRequest` failures and `client.Do` failures are both the outcome `ForwardError`. `Header.Add`'s canonicalisation of header names is not modelled; inbound header names are taken as already canonical.
- **Listener plumbing.** `startServer` and `ListenAndServe`, `main.go` (flags, signals, shutdown), `config.go` and `logger.go` are I/O.
- **`cache.go`.** It is a duplicate `connectToRedis` plus stubs that return nil, and is not part of this model.
- **Admission before the handler.** The source handler never calls `TakeToken`, so no throttled status exists in the model.
- **Single-flight.** There is no per-key exclusion between concurrent misses, in the source or in the model.
- **Non-UTF-8 text.** Only paths, parameter names and values that are valid UTF-8 are modelled. Go strings are byte strings, and the decoded query or path may hold any bytes (`?a=%FF`). Dafny strings are sequences of Unicode scalar values, so they cannot hold such a value. For such inputs, neither the byte-wise order claimed for `StringOrder.Below` nor the raw key handed to `sha256` is modelled.

## Findings

| source | as written | input that shows it | evidently intended | confidence | as-written member | corrected member |
|---|---|---|---|---|---|---|
| token_bucket.go:38-41 | `tokens += tokensPerInterval` in 64-bit `int`, then clamp at `maxTokens` | full bucket of 100 with `tokensPerInterval` = 2^63 - 1: the sum wraps to -2^63 + 99, which passes the clamp and leaves a negative count | add and clamp without overflow, keeping `0 <= tokens <= maxTokens` | low: not executed, and unreachable with the constants 100 and 10 that `main.go` uses | TokenBucket.RefillAsWritten, TokenBucket.RefillAsWrittenWrapsNegative | TokenBucket.Refill |
| server.go:79-89 | `req, err := http.NewRequest(...)` reassigns the inbound request parameter to the new request, so the loop copies the new request's empty headers onto themselves | an inbound request with `Accept: text/html` reaches the origin with no headers | copy every inbound header onto the outbound request, as the comment at line 84 says | high: not executed | Server.ForwardRequestAsWritten, Server.ForwardRequestAsWrittenDropsHeaders | Server.ForwardRequest, Server.AddAllCopies |

The handler, `Server.RootHandler`, models the code and so forwards with the as-written request. The corrected forward is proved separately.
