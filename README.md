# Cache-aside weather lookup

A model of the weather lookup in `internal/weather/service.go` of a small Go web app. The app puts a Redis cache in front of a third-party weather API. A lookup for a city does the following:

1. It builds the key `"weather:" + city`.
2. If a cache client exists and a Get on that key returns a value that decodes as JSON, that record is returned.
3. Otherwise it makes exactly one upstream HTTP call. Upstream failures are classified and returned.
4. On success it writes the record back with a TTL of `RedisExpiryMin` minutes. The write is best effort: any failure there is swallowed.

How the model is laid out:

- `wrappers.dfy`: `Option` and `Result`.
- `models.dfy`: the `WeatherResponse` record of `internal/weather/models.go`. Also the JSON codec, given as a pair of total functions. `Coherent` names the round-trip property that the lemmas assume about it.
- `service.dfy` (module `Weather`):
  - the cache key;
  - the int64 expiry duration;
  - the classification in `fetchFromAPI`;
  - a pure specification `Lookup` of one call;
  - the class `Service`.
- `Service` holds the optional cache store (`None` is the nil client) and ghost counters of upstream calls and cache Sets. Its methods `GetWeather` and `CacheWeather` follow the Go code step by step, with early returns, and are proved equal to `Lookup` and `WriteBack`.
- `properties.dfy`: lemmas about a single lookup.
- `lookups.dfy`: lemmas about a sequence of lookups, proved by induction. The main one says how many upstream calls the cache saves.
- `scenarios.dfy`: three concrete lookups (London, Paris, Nowhere), plus a client that calls `GetWeather` twice.

Everything the service cannot decide itself is a parameter `Env`:

- whether the cache Get fails at run time;
- the upstream triple `(errs, statusCode, body)`;
- whether the cache Set fails.

The startup probe in `internal/cache/redis.go:30-35` returns a nil client when the ping fails. The model keeps only the outcome: the constructor receives `None` for the cache.

The key is the city verbatim and case-sensitive, with no normalisation (`service.go:36`).

## Model

| member | source | states |
|---|---|---|
| Weather.CacheKey | internal/weather/service.go:36 | the key is `"weather:"` followed by the city verbatim (prefix and suffix stated separately) |
| Weather.WrapInt64 | internal/weather/service.go:106 | two's-complement int64 wrap: the result is in range, congruent to the input mod 2^64, and the input itself when it fits |
| Weather.ExpiryDuration | internal/weather/service.go:106 | `time.Duration(min) * time.Minute` is an int64; it equals min * 60e9 ns whenever that fits, and is positive for positive minutes that fit |
| Weather.CacheGet | internal/weather/service.go:39-41 | a Get yields a value exactly when the client exists, the call does not fail and the key is present; the value is the stored one |
| Weather.CachedRecord | internal/weather/service.go:39-49 | a hit needs a client, a present key and a value that decodes; the hit record is the decoded stored value; no client, a Get error or a missing key is never a hit; and whenever the Get succeeds, the result is exactly the decoding of the stored value |
| Weather.FetchFromAPI | internal/weather/service.go:76-89 | fixed order: transport errors give a TransportError with the first error; then a non-200 status gives a StatusError with that code; then a body that does not decode gives a ParseError; success exactly when none of these, with the decoded record |
| Weather.WriteBack | internal/weather/service.go:93-113 | no client means no write; at most one Set; the store changes only when the client exists, encoding succeeds and the Set succeeds; and in that case it does change: the key maps to the encoding with the configured expiry, after one Set |
| Weather.Lookup | internal/weather/service.go:35-66 | at most one upstream call, and no more Sets than upstream calls; the client's presence is kept; only the city's key can change or be added; a failure means one upstream call, no write, cache unchanged; no upstream call means a success with the cache unchanged; the lookup succeeds if and only if it is a hit or upstream succeeds |
| Weather.Service.constructor | internal/weather/service.go:25-31 | the service keeps the codec, expiry and cache handle it is given, with zero calls counted |
| Weather.Service.GetWeather | internal/weather/service.go:35-66 | the step-by-step method returns `Lookup`'s result, leaves `Lookup`'s cache, and advances the upstream and Set counters by `Lookup`'s counts |
| Weather.Service.CacheWeather | internal/weather/service.go:93-119 | the method leaves the cache `WriteBack` describes, counts its Set call, and makes no upstream call |
| LookupProperties.CacheKeyInjective | internal/weather/service.go:36 | two cities share a key if and only if they are equal |
| LookupProperties.CacheKeyIsCaseSensitive | internal/weather/service.go:36 | the key for "London" is "weather:London", and it differs from the key for "london" |
| LookupProperties.LookupHit | internal/weather/service.go:39-48 | a present, decodable cached value is returned as is, with no upstream call, no write and the cache unchanged |
| LookupProperties.LookupMissCallsUpstreamOnce | internal/weather/service.go:39-60 | a Get error, a missing key or an undecodable value is a miss: exactly one upstream call; the lookup fails if and only if upstream fails, and then with upstream's error |
| LookupProperties.LookupFailsOnlyFromUpstream | internal/weather/service.go:39-60 | every failed lookup was a miss whose upstream call failed with exactly that error; cache errors never surface |
| LookupProperties.LookupWithoutCache | internal/weather/service.go:39-96 | with a nil client every lookup makes one upstream call, returns upstream's classification and performs no Set |
| LookupProperties.LookupUpstreamFailure | internal/weather/service.go:57-60 | an upstream failure on a miss is returned, with no write and the cache unchanged |
| LookupProperties.LookupUpstreamSuccess | internal/weather/service.go:57-65 | an upstream success on a miss returns that record whether or not the Set fails |
| LookupProperties.LookupWriteBack | internal/weather/service.go:62-107 | after an upstream success, a successful encode and Set, the cache is the old one with the key mapped to the encoded record and expiry `RedisExpiryMin` minutes; one upstream call, one Set |
| LookupProperties.LookupWritesOnlyFetchedRecords | internal/weather/service.go:57-107 | any change to the store is the encoding of the record that upstream returned and the lookup returns; error payloads are never cached |
| LookupProperties.LookupTransparentOnMiss | internal/weather/service.go:39-65 | on a miss the result is the same as with no cache at all |
| LookupProperties.LookupPreservesDecodable | internal/weather/service.go:93-107 | with a coherent codec, a store whose values all decode still has that property after a lookup |
| LookupProperties.SuccessfulLookupIsThenCached | internal/weather/service.go:39-107 | with a coherent codec and a working cache, a successful lookup is followed by a hit on the same record for the same city, with no upstream call |
| RepeatedLookups.LookupAll | internal/weather/service.go:35-66 | over n lookups: n results, at most n upstream calls, no more Sets than upstream calls; with no client exactly n upstream calls and no Sets; cached keys are never lost |
| RepeatedLookups.PassThrough | internal/weather/service.go:39-60 | with no client, the i-th lookup returns exactly upstream's answer to the i-th request |
| RepeatedLookups.LookupAllPreservesDecodable | internal/weather/service.go:93-113 | over any run, a store whose values all decode keeps that property |
| RepeatedLookups.HealthyMissAddsKey | internal/weather/service.go:39-107 | with a healthy cache and a coherent codec, an upstream success happens only for a key that was absent, and it adds exactly that key |
| RepeatedLookups.HealthyLookupStep | internal/weather/service.go:39-107 | with a healthy cache, one lookup keeps all old keys; its upstream calls are one per failure plus one per newly added key |
| RepeatedLookups.UpstreamCallsCount | internal/weather/service.go:35-66 | with a healthy cache, over any run: upstream calls = newly cached keys + failed lookups, and new keys are among those requested |
| RepeatedLookups.UpstreamCallsBound | internal/weather/service.go:35-66 | with a healthy cache, upstream calls are at most the number of distinct keys requested plus the failed lookups |
| Scenarios.LondonFetchedAndCached | internal/weather/service.go:35-66 | "London", empty cache, status 200: the record is returned and "weather:London" holds its encoding with a 30-minute expiry |
| Scenarios.ParisServedFromCache | internal/weather/service.go:39-48 | "Paris" cached with a valid record: returned with no upstream call and the cache unchanged |
| Scenarios.NowhereNotFound | internal/weather/service.go:80-82 | "Nowhere" with status 404: a StatusError(404), and "weather:Nowhere" stays unset |

## Left out

- JSON encoding and decoding (`encoding/json`): the codec is a parameter of the service. Its round trip is the hypothesis `Coherent` of the lemmas that need it. It is not modelled as real JSON with float64 fields.
- Error messages: the `fmt.Errorf` texts are replaced by the typed `FetchError`. Each variant carries what its message reports: the first transport error, the status code, or nothing for a parse error (the decoder's own error is not modelled).
- URL construction and the HTTP GET (`service.go:70-74`): only the resulting `(errs, statusCode, body)` triple is modelled.
- The Redis connection, the ping probe and the client library: the store is a map. A Get that fails, whether on a missing key or because the store is down, is one outcome. A Set that fails is modelled as leaving the store unchanged.
- TTL expiry over time, context deadlines and cancellation: the expiry duration is recorded with each entry but never enforced. The model has no clock, so an entry never disappears.
- Concurrent lookups (no single-flight): each lookup is modelled as one atomic step on the store.
- Logging (logrus): no effect on control flow.
- The HTTP handlers, routes, templates, configuration loading and `main.go` wiring: not part of the core. The empty-city check in `internal/server/handlers.go:25` appears only as the precondition `|city| > 0` of `GetWeather`.
- Weather.Service.constructor: `NewService`'s `config.Config` is reduced to `RedisExpiryMin`; the API URL and key only shape the HTTP request, which is not modelled. The codec parameter stands for `encoding/json`. The logger parameter is dropped.
