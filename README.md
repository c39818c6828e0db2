# Weather SDK cache and orchestration, modelled in Dafny

This project models the in-memory core of a Java client library for the
OpenWeather API. It has five parts:

- **`WeatherCacheManager`** (`cache.dfy`) is a city → weather-string cache.
  - It holds at most ten cities.
  - Eviction follows first-insertion order, through an explicit queue.
  - An entry stops being readable ten minutes after its last write.
- **`OpenWeatherApiClient`** (`api_client.dfy`) holds the client's guards and how it classifies a reply.
  - Guards: the API key and the city name must be non-blank.
  - Classification: a 4xx or 5xx status with a non-empty body, and a failure of the exchange, each map to an SDK error.
    A 4xx or 5xx reply with an empty body is processed as a normal reply and yields the null payload.
  - It also converts a decoded report into the output summary.
- **`WeatherUpdater`** (`updater.dfy`) is the polling cycle.
  - It takes a snapshot of the readable cities and fetches each one once.
  - It writes each success back and swallows each failure.
  - It skips a cycle while another holds the lock.
- **`WeatherSdkImpl`** (`sdk.dfy`) is one SDK instance.
  - The constructor checks the key, the mode and the interval.
  - Reads go through the cache: a hit is answered from it, a miss is fetched and written.
  - `stopPolling` detaches the updater.
  - `shutdown` is one-way. After it every other operation fails, and a second `shutdown` does nothing.
- **`WeatherSdkFactory`** (`factory.dfy`) is the registry of instances, one per API key.
  - A call with the same parameters returns the stored instance.
  - Changed parameters replace the stored instance, and the old one is shut down.
  - Removal fails for an unknown key.

`common.dfy` holds the error kinds, `Result`/`Option` and Java's blank test
(`trim().isEmpty()`).

Each class keeps its state in fields and updates them in place. Its
methods are proved against value-level specification functions:

- `Cache.Lookup`, `Cache.Put`, `Cache.EvictOldest` for the cache;
- `ApiClient.Fetch` for a fetch;
- `Updater.Refresh` for a cycle;
- `Sdk.ReadThrough` for the read path.

Lemmas state the properties of those functions.

Several things outside the program become explicit inputs:

- **The clock.** Caffeine's `Ticker` becomes a parameter `now`, in nanoseconds.
- **The network.** The WebClient and the server become a function `network: (Request, int) -> Exchange`, fixed when a client is built.
  - An `Exchange` is a reply or a failure of the exchange.
  - A reply has a status, a body, the message `extractErrorMessage` would read from the body, and what the JSON decoder makes of the body.
- **Requests sent.** A ghost field `requests` of the client records every request sent. This is how "exactly one fetch" and "no fetch" are stated.

## Model

| member | source | states |
|---|---|---|
| Cache.WriteCheck | src/main/java/ru/practicum/test_task_weather_sdk/service/WeatherCacheManager.java:49-53 | A write is accepted iff both the city and the data are non-blank. A blank city gives InvalidCityException. Blank data for a valid city gives a WeatherSdkException. |
| Cache.EvictOldest | src/main/java/ru/practicum/test_task_weather_sdk/service/WeatherCacheManager.java:91-101 | Eviction drops exactly the first `|order| - 10` queue heads from the queue, the map and the set, and nothing else. |
| Cache.PutNewCity | src/main/java/ru/practicum/test_task_weather_sdk/service/WeatherCacheManager.java:54-66 | Writing a new city appends it to the queue. On a full cache exactly the oldest city (the queue head) is evicted, and every other city keeps its data. |
| Cache.PutExistingCity | src/main/java/ru/practicum/test_task_weather_sdk/service/WeatherCacheManager.java:54-61 | Re-writing a member replaces its data and write time. The queue and the set are unchanged, so the member's eviction position stays the same. |
| Cache.PutPreservesInvariant | src/main/java/ru/practicum/test_task_weather_sdk/service/WeatherCacheManager.java:54-66 | After any accepted write, the queue has no duplicates, holds exactly the members, which are the cached keys, and has at most 10 entries. |
| Cache.PutThenLookup | src/main/java/ru/practicum/test_task_weather_sdk/service/WeatherCacheManager.java:32-55 | A city just written reads back exactly the written string while less than ten minutes have passed. From then on it misses with CityNotFoundException, even though it was not evicted. |
| Cache.LiveCitiesBounded | src/main/java/ru/practicum/test_task_weather_sdk/service/WeatherCacheManager.java:75-77 | At most 10 cities are readable at any time. |
| Cache.WriteAllLookup | src/main/java/ru/practicum/test_task_weather_sdk/service/WeatherCacheManager.java:91-101 | Writing n distinct cities into an empty cache at one time leaves the first n - 10 unreadable and the rest reading back their own data (City1..City12: City1 and City2 miss, City3..City12 hit). |
| Cache.Enumerate | src/main/java/ru/practicum/test_task_weather_sdk/service/WeatherUpdater.java:62 | Iterating a set (the cached key set, as updateWeather and getCachedCities do) yields each of its cities exactly once. |
| Cache.WeatherCacheManager.constructor | src/main/java/ru/practicum/test_task_weather_sdk/service/WeatherCacheManager.java:29-35 | A new cache is empty and satisfies the invariant. |
| Cache.WeatherCacheManager.GetCached | src/main/java/ru/practicum/test_task_weather_sdk/service/WeatherCacheManager.java:37-47 | The result follows `Lookup`: a blank name gives InvalidCityException, a live entry gives its data, and anything else gives CityNotFoundException with the cache's message. |
| Cache.WeatherCacheManager.UpdateCache | src/main/java/ru/practicum/test_task_weather_sdk/service/WeatherCacheManager.java:49-66 | Both checks run before any change, and a refused write changes nothing. An accepted write leaves exactly the state `Put` describes (map, queue, set) and keeps the invariant. |
| Cache.WeatherCacheManager.GetCachedCities | src/main/java/ru/practicum/test_task_weather_sdk/service/WeatherCacheManager.java:75-77 | A city is listed iff a read of it would succeed now. At most 10 cities are listed. |
| Cache.WeatherCacheManager.ClearCache | src/main/java/ru/practicum/test_task_weather_sdk/service/WeatherCacheManager.java:79-89 | Map, queue and set are all emptied, so every later read misses. |
| Cache.WeatherCacheManager.RemoveOldestEntry | src/main/java/ru/practicum/test_task_weather_sdk/service/WeatherCacheManager.java:91-105 | The polling loop leaves exactly the state `EvictOldest` describes. |
| ApiClient.RequestFor | src/main/java/ru/practicum/test_task_weather_sdk/service/OpenWeatherApiClient.java:49-55 | The request goes to the configured base URL with the city as `q` and the key as `appid`. |
| ApiClient.NewConfig | src/main/java/ru/practicum/test_task_weather_sdk/service/OpenWeatherApiClient.java:22-42 | Both constructors refuse exactly a blank key, with InvalidApiKeyException. Otherwise they keep the key and the base URL. |
| ApiClient.Convert | src/main/java/ru/practicum/test_task_weather_sdk/service/OpenWeatherApiClient.java:85-112 | Conversion succeeds iff the first element of `weather` and every other value are present. Each output field is the corresponding input field. Any failure is exactly WeatherSdkException("Error processing weather data"). |
| ApiClient.Render | src/main/java/ru/practicum/test_task_weather_sdk/service/OpenWeatherApiClient.java:87-107 | The serialized summary starts with '{' and ends with '}', so it is never blank. |
| ApiClient.ClientError | src/main/java/ru/practicum/test_task_weather_sdk/service/OpenWeatherApiClient.java:114-123 | 401 gives InvalidApiKeyException, 403 ApiKeyBlockedException, 404 CityNotFoundException, and any other status a plain WeatherSdkException (each iff). |
| ApiClient.MapError | src/main/java/ru/practicum/test_task_weather_sdk/service/OpenWeatherApiClient.java:70-71 | After `onErrorMap` every exception is an SDK exception. An SDK exception and a non-error signal pass unchanged. Any other exception becomes NetworkException("Network error: " + its message). |
| ApiClient.Rethrow | src/main/java/ru/practicum/test_task_weather_sdk/service/OpenWeatherApiClient.java:76-82 | An SDK exception is rethrown unchanged. Any other exception becomes NetworkException("Unexpected network error: " + its message). |
| ApiClient.Fetch | src/main/java/ru/practicum/test_task_weather_sdk/service/OpenWeatherApiClient.java:44-47 | A blank city fails with InvalidCityException whatever the network would do. |
| ApiClient.ClientErrorReply | src/main/java/ru/practicum/test_task_weather_sdk/service/OpenWeatherApiClient.java:57-61 | A 4xx reply with a body fails with the exception its status selects (each kind iff its status), carrying the extracted message. |
| ApiClient.ServerErrorReply | src/main/java/ru/practicum/test_task_weather_sdk/service/OpenWeatherApiClient.java:62-66 | A 5xx reply with a body fails with UnexpectedApiException carrying the raw body. |
| ApiClient.FetchFailureKinds | src/main/java/ru/practicum/test_task_weather_sdk/service/OpenWeatherApiClient.java:44-83 | Every fetch failure has one of the client's own kinds. A failure of the exchange itself is always a NetworkException. |
| ApiClient.FetchOkPayload | src/main/java/ru/practicum/test_task_weather_sdk/service/OpenWeatherApiClient.java:56-72 | A successful fetch returns either the summary of a complete decoded report, or the null payload when the body is empty. The payload is blank exactly in the second case. |
| ApiClient.IncompleteReport | src/main/java/ru/practicum/test_task_weather_sdk/service/OpenWeatherApiClient.java:108-111 | A decoded but incomplete report fails with exactly the processing error. |
| ApiClient.UndecodableReply | src/main/java/ru/practicum/test_task_weather_sdk/service/OpenWeatherApiClient.java:68-71 | A body the decoder refuses fails with NetworkException("Network error: …"). |
| ApiClient.OpenWeatherApiClient.constructor | src/main/java/ru/practicum/test_task_weather_sdk/service/OpenWeatherApiClient.java:33-42 | A client keeps its configuration and has sent no request. |
| ApiClient.OpenWeatherApiClient.Create | src/main/java/ru/practicum/test_task_weather_sdk/service/OpenWeatherApiClient.java:22-42 | A blank key fails with InvalidApiKeyException and builds nothing. Otherwise a fresh client is built for the key. |
| ApiClient.OpenWeatherApiClient.Outcome | src/main/java/ru/practicum/test_task_weather_sdk/service/OpenWeatherApiClient.java:44-47 | A blank city fails with InvalidCityException. |
| ApiClient.OpenWeatherApiClient.FetchWeather | src/main/java/ru/practicum/test_task_weather_sdk/service/OpenWeatherApiClient.java:44-83 | The result is `Fetch` of the network's answer. A blank city sends no request; any other city sends exactly one. |
| Updater.PoolSize | src/main/java/ru/practicum/test_task_weather_sdk/service/WeatherUpdater.java:59 | The worker count for a non-empty snapshot is min(n, 5), so it lies between 1 and 5. |
| Updater.Refresh | src/main/java/ru/practicum/test_task_weather_sdk/service/WeatherUpdater.java:62-66 | A cycle never changes the queue, the set or the cached keys. |
| Updater.RefreshNothing | src/main/java/ru/practicum/test_task_weather_sdk/service/WeatherUpdater.java:52-56 | A cycle over no city changes nothing. |
| Updater.RefreshPreservesInvariant | src/main/java/ru/practicum/test_task_weather_sdk/service/WeatherUpdater.java:62-73 | A cycle keeps the cache's invariant. |
| Updater.RefreshLookup | src/main/java/ru/practicum/test_task_weather_sdk/service/WeatherUpdater.java:62-73 | After a cycle, a city of the snapshot whose fetch succeeded reads its new payload. Every other city reads as before, so failures are swallowed and only snapshot cities are written. |
| Updater.RefreshKeepsLiveCities | src/main/java/ru/practicum/test_task_weather_sdk/service/WeatherUpdater.java:52-73 | A cycle over the readable cities leaves exactly those cities readable. |
| Updater.RefreshStep | src/main/java/ru/practicum/test_task_weather_sdk/service/WeatherUpdater.java:63-72 | Processing one more city is a cache write of its payload when the fetch succeeds and the write is accepted. Otherwise nothing changes. |
| Updater.RequestsFor | src/main/java/ru/practicum/test_task_weather_sdk/service/WeatherUpdater.java:62-65 | The requests for a city sequence are one per city, in order. |
| Updater.WeatherUpdater.constructor | src/main/java/ru/practicum/test_task_weather_sdk/service/WeatherUpdater.java:18-25 | A new updater is scheduled and not busy. |
| Updater.WeatherUpdater.Create | src/main/java/ru/practicum/test_task_weather_sdk/service/WeatherUpdater.java:18-19 | An interval ≤ 0 fails with WeatherSdkException and builds nothing. |
| Updater.WeatherUpdater.Stop | src/main/java/ru/practicum/test_task_weather_sdk/service/WeatherUpdater.java:27-43 | No further cycle is scheduled. Stopping twice is harmless. |
| Updater.WeatherUpdater.Visit | src/main/java/ru/practicum/test_task_weather_sdk/service/WeatherUpdater.java:63-73 | One task sends one request for its city. It writes a success and swallows a failure, advancing the cycle by exactly that city. |
| Updater.WeatherUpdater.RunCycle | src/main/java/ru/practicum/test_task_weather_sdk/service/WeatherUpdater.java:62-76 | Each snapshot city is fetched exactly once, and the cache ends as `Refresh` of the snapshot. |
| Updater.WeatherUpdater.UpdateWeather | src/main/java/ru/practicum/test_task_weather_sdk/service/WeatherUpdater.java:45-85 | A call while a cycle holds the lock sends nothing and changes nothing. Otherwise each readable city is fetched exactly once and the cache becomes `Refresh` of that snapshot. The lock is released on every path. |
| Sdk.ConfigError | src/main/java/ru/practicum/test_task_weather_sdk/service/WeatherSdkImpl.java:25-50 | Construction is refused iff the key is blank, or polling has interval ≤ 0, or on-demand has interval ≠ 0. Every refusal is a WeatherSdkException, and a blank key is checked first. |
| Sdk.ReadThroughHit | src/main/java/ru/practicum/test_task_weather_sdk/service/WeatherSdkImpl.java:58-62 | A cache hit answers the cached string with no fetch and no write. |
| Sdk.ReadThroughMissWrites | src/main/java/ru/practicum/test_task_weather_sdk/service/WeatherSdkImpl.java:116-131 | On a miss, a successful fetch is written under the city and returned. The city then reads back the same string, so a second read is a hit. |
| Sdk.ReadThroughFailure | src/main/java/ru/practicum/test_task_weather_sdk/service/WeatherSdkImpl.java:128-129 | A failed fetch propagates unchanged, and a refused write propagates the cache's error. Neither changes the cache. |
| Sdk.ReadThroughPreservesInvariant | src/main/java/ru/practicum/test_task_weather_sdk/service/WeatherSdkImpl.java:116-135 | The read path keeps the cache's invariant, whatever the fetch returns. |
| Sdk.WeatherSdkImpl.constructor | src/main/java/ru/practicum/test_task_weather_sdk/service/WeatherSdkImpl.java:25-51 | A new instance is not shut down and has an empty cache and a client for its key. Its updater is attached iff the mode is polling. |
| Sdk.WeatherSdkImpl.Create | src/main/java/ru/practicum/test_task_weather_sdk/service/WeatherSdkImpl.java:25-51 | A refused configuration fails with the constructor's message and builds nothing. |
| Sdk.WeatherSdkImpl.FetchAndCache | src/main/java/ru/practicum/test_task_weather_sdk/service/WeatherSdkImpl.java:116-135 | Answer and cache follow `ReadThrough`, re-checking the cache first. Exactly one request goes out on a miss, and none on a hit. |
| Sdk.WeatherSdkImpl.GetWeather | src/main/java/ru/practicum/test_task_weather_sdk/service/WeatherSdkImpl.java:53-67 | The shutdown check comes first, then the city check, and neither touches cache or network. After that, answer, cache and requests follow the read-through path. |
| Sdk.WeatherSdkImpl.UpdateWeather | src/main/java/ru/practicum/test_task_weather_sdk/service/WeatherSdkImpl.java:69-74 | Same path as getWeather, so a city the cache still serves is not fetched. |
| Sdk.WeatherSdkImpl.GetCachedCities | src/main/java/ru/practicum/test_task_weather_sdk/service/WeatherSdkImpl.java:76-81 | It fails iff the instance is shut down. Otherwise it lists each readable city once, at most 10 of them. |
| Sdk.WeatherSdkImpl.ClearCache | src/main/java/ru/practicum/test_task_weather_sdk/service/WeatherSdkImpl.java:83-88 | After shutdown it fails and changes nothing. Otherwise the cache is emptied. |
| Sdk.WeatherSdkImpl.IsPollingEnabled | src/main/java/ru/practicum/test_task_weather_sdk/service/WeatherSdkImpl.java:90-94 | It reports whether an updater is attached, or fails after shutdown. |
| Sdk.WeatherSdkImpl.StopPolling | src/main/java/ru/practicum/test_task_weather_sdk/service/WeatherSdkImpl.java:96-104 | The updater is stopped and detached, so polling reads false afterwards. A second call does nothing. After shutdown it fails and changes neither the instance nor any updater. |
| Sdk.WeatherSdkImpl.Shutdown | src/main/java/ru/practicum/test_task_weather_sdk/service/WeatherSdkImpl.java:106-114 | The first call stops polling, clears the cache and marks the instance shut down; a shut-down instance never has an updater. A later call leaves the instance and its cache untouched. |
| Factory.NeedsUpdate | src/main/java/ru/practicum/test_task_weather_sdk/service/WeatherSdkFactory.java:42-45 | An instance is replaced iff its mode or its interval differs from the requested one. |
| Factory.WeatherSdkFactory.constructor | src/main/java/ru/practicum/test_task_weather_sdk/service/WeatherSdkFactory.java:13 | The registry starts empty. |
| Factory.WeatherSdkFactory.DisjointFootprints | src/main/java/ru/practicum/test_task_weather_sdk/service/WeatherSdkFactory.java:47-51 | Instances under different keys share no object (instance, cache, client, updater), so an operation on one instance cannot change another. |
| Factory.WeatherSdkFactory.DistinctInstances | src/main/java/ru/practicum/test_task_weather_sdk/service/WeatherSdkFactory.java:47-51 | Different keys are served by different instances. |
| Factory.WeatherSdkFactory.CreateNewInstance | src/main/java/ru/practicum/test_task_weather_sdk/service/WeatherSdkFactory.java:47-51 | A refused configuration registers nothing. Otherwise a fresh instance with the requested parameters is registered under the key, and no other key changes. |
| Factory.WeatherSdkFactory.RemoveInstance | src/main/java/ru/practicum/test_task_weather_sdk/service/WeatherSdkFactory.java:53-70 | A blank key, or a key with no instance, fails with InvalidApiKeyException and changes nothing (the registry is untouched and no instance is registered under the key). Otherwise the entry is removed and its instance shut down: it is left valid, shut down and without an updater, and its client is unchanged, so no request is sent. If it was live before, its cache was emptied and its updater stopped; if it was already shut down, the instance and its cache are untouched. Every other key keeps its instance, and that instance's objects are untouched. The registry invariant is kept. |
| Factory.WeatherSdkFactory.Unregister | src/main/java/ru/practicum/test_task_weather_sdk/service/WeatherSdkFactory.java:59-62 | The present-key path of removal: the key leaves the registry and its instance is shut down, as RemoveInstance states; every other key keeps its instance untouched, and the registry invariant is kept. |
| Factory.WeatherSdkFactory.Replace | src/main/java/ru/practicum/test_task_weather_sdk/service/WeatherSdkFactory.java:27-36 | Replacement removes the old instance and shuts it down: no updater, its client unchanged (no request is sent), and if it was live, its cache emptied and its updater stopped; an already shut-down old instance and its cache are untouched. Then it builds the new one. If building fails, the key stays unregistered. Every other key keeps its instance untouched. |
| Factory.WeatherSdkFactory.GetInstance | src/main/java/ru/practicum/test_task_weather_sdk/service/WeatherSdkFactory.java:19-40 | A blank key fails and changes nothing. The same parameters return the identical stored instance, and neither the registry nor that instance (its cache, client and updater) changes. Changed parameters replace the stored instance, which is shut down fully: no updater, its client unchanged (no request is sent), and if it was live, its cache emptied and its updater stopped; an already shut-down instance and its cache are untouched. A new key gets a fresh instance. Any instance returned is registered under the key and valid. Every other key keeps its instance, and that instance's objects are untouched. |

## Left out

- The per-write expiry timer (`WeatherCacheManager.java:68-72`) is not modelled.
  - Every write starts a new timer and never cancels earlier ones.
  - An earlier timer can therefore remove a city that was just re-written.
  - It removes the city from the set but not from the queue.
  - Expiry is modelled only through the write time checked at read time.
- Caffeine's own size bound (`maximumSize`) is not modelled, because its eviction policy is internal to the library. Capacity is enforced only by the explicit queue.
- The locks are not modelled:
  - the cache's `synchronized` block and lock;
  - the `fetchAndCache` lock;
  - the registry lock.
  Every operation runs to completion before the next one starts. The updater's try-lock is the flag `busy`.
- The scheduler that fires `updateWeather` every `interval` seconds is not modelled. `stop` is the flag `scheduled`; its grace period and forced shutdown are left out.
- The cycle's thread pool and latch are not modelled. The tasks run one after another in the set's iteration order, all at the same `now`.
  - The latch is sized from `cities.size()`, while the tasks come from iterating a live key-set view, and the two can disagree if entries expire mid-cycle. The model takes one consistent snapshot.
  - If fewer tasks run than `cities.size()`, `latch.await()` (`WeatherUpdater.java:76`) never returns. The lock then stays held until `stop()` interrupts the thread, and every scheduled cycle skips at the try-lock (line 46) until then. The model does not capture this hang.
  - The interrupt path (`WeatherUpdater.java:79-81`) is not modelled.
  - `PoolSize` states the worker count, but nothing uses it.
- Logging is not modelled.
- `null` is not modelled. A null key or city is refused exactly as a blank one. A null mode (a NullPointerException in the constructor's `switch`) and the unreachable "Unsupported update mode" branch are not modelled.
- The HTTP exchange and JSON handling are inputs, not code:
  - the request pipeline itself;
  - Jackson's decoding of `WeatherResponse`, which is the `decoding` of a reply;
  - `extractErrorMessage`, which is the reply's `errorMessage`.
- The DTOs are not modelled beyond which values are present.
  - Their `@Min`/`@NotBlank`/`@NotNull` constraints are never checked by the code, so they are not modelled.
  - The DTO reads `temperature`, `datetime` and `sun`, while OpenWeather replies carry `main`, `dt` and `sys`. Against the real service these fields decode as absent, and conversion fails with the processing error. The model only states what happens for a given decoded report.
- Reply statuses are limited to 100..599 (the `Status` type). Spring's handling of codes outside that range, which are not HTTP final-response statuses, is not modelled.
- A 2xx body that is the JSON literal `null` decodes to an empty result, which `fetchWeather` would return as the null payload. `Decoding` has no case for it, so this path is not modelled.
- Render: states only that the output starts with '{' and ends with '}', so it is never blank. It does not state that the output is valid JSON: number fields are carried as given, so a value that is not a JSON number text would make the output invalid. The key order of `Map.of` is unspecified, and Jackson's formatting of `Double`/`Long` values is left out. Numbers are carried as their JSON text. Control characters are written as `\u00XX` escapes, where Jackson writes `\n`, `\t`, `\r`, `\b` and `\f` in their short forms; both are valid JSON for the same string.
- The SDK's `updateWeather` re-checks the cache, as the code does: a city the cache still serves is not fetched again. It is not an unconditional refresh.
- Updater.WeatherUpdater.Stop: does not model the wait for an in-flight cycle or the forced termination; it only stops further scheduling.
