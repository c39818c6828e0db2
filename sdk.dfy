/** WeatherSdkImpl: one SDK instance. It validates its configuration once,
    owns a cache and a client, optionally owns a polling updater, and
    serves reads through the cache until it is shut down for good.

    The instance's lock is not modelled: every operation runs to completion
    before the next one starts. */
module Sdk {
  import opened Common
  import opened Cache
  import opened ApiClient
  import opened Updater

  /** The SdkShutdownException every operation throws after shutdown. */
  const ShutdownError := Error(SdkShutdown, "This WeatherSdk instance has been shut down and cannot be used")

  /** The message of the refusal of a polling interval in on-demand mode. */
  const ZeroIntervalMessage := "Polling interval must be 0 in ON_DEMAND_MODE mode"

  /** The constructor's checks, in the order it makes them. */
  function ConfigError(apiKey: string, mode: Mode, interval: int): (r: Option<Error>)
    ensures r.None? <==> !IsBlank(apiKey) && (mode == Polling ==> interval > 0) && (mode == OnDemand ==> interval == 0)
    ensures r.Some? ==> r.value.kind == SdkError
    ensures IsBlank(apiKey) ==> r == Some(Error(SdkError, BlankKeyMessage))
  {
    if IsBlank(apiKey) then Some(Error(SdkError, BlankKeyMessage))
    else match mode
      case Polling =>
        if interval <= 0 then Some(Error(SdkError, PositiveIntervalMessage)) else None
      case OnDemand =>
        if interval != 0 then Some(Error(SdkError, ZeroIntervalMessage)) else None
  }

  /** The read-through path of getWeather and updateWeather (through
      fetchAndCache) on a cache `st` for a valid city at `now`, where
      `fetched` is what the client would return: the answer and the cache
      afterwards. A hit answers from the cache; a miss fetches, and a
      successful fetch is written before it is returned; a failed fetch or a
      refused write is the answer and leaves the cache as it was. */
  function ReadThrough(st: Store, city: string, fetched: Result<string>, now: int): (Result<string>, Store) {
    var cached := Lookup(st, city, now);
    if cached.Ok? then (cached, st)
    else if fetched.Fail? then (fetched, st)
    else match WriteCheck(city, fetched.value)
      case Some(e) => (Fail(e), st)
      case None => (fetched, Put(st, city, fetched.value, now))
  }

  /** Whether the read-through path sends a request: only on a miss. */
  function Misses(st: Store, city: string, now: int): bool {
    Lookup(st, city, now).Fail?
  }

  /** A cache hit is answered from the cache: no fetch result matters and
      nothing is written. */
  lemma ReadThroughHit(st: Store, city: string, fetched: Result<string>, now: int)
    requires !Misses(st, city, now)
    ensures ReadThrough(st, city, fetched, now) == (Lookup(st, city, now), st)
  {
  }

  /** A miss followed by a successful fetch of a non-blank payload writes
      that payload under the city and returns it; the invariant holds
      afterwards and the city now reads back the same payload, so a second
      read at the same time is a hit that sends nothing. */
  lemma ReadThroughMissWrites(st: Store, city: string, data: string, now: int)
    requires Invariant(st) && !IsBlank(city) && !IsBlank(data) && Misses(st, city, now)
    ensures var (r, st') := ReadThrough(st, city, Ok(data), now);
      && r == Ok(data) && st' == Put(st, city, data, now)
      && Invariant(st')
      && Lookup(st', city, now) == Ok(data)
      && !Misses(st', city, now)
  {
    PutPreservesInvariant(st, city, data, now);
    PutThenLookup(st, city, data, now, now);
  }

  /** Every failure of the read-through path leaves the cache as it was: a
      failed fetch propagates unchanged, and a refused write (a null
      payload) fails with the cache's own error. */
  lemma ReadThroughFailure(st: Store, city: string, fetched: Result<string>, now: int)
    requires !IsBlank(city)
    ensures var (r, st') := ReadThrough(st, city, fetched, now);
      r.Fail? ==> st' == st && (fetched.Fail? ==> r == fetched)
    ensures Misses(st, city, now) && fetched.Ok? && IsBlank(fetched.value) ==>
      ReadThrough(st, city, fetched, now).0 == Fail(WriteCheck(city, fetched.value).value)
  {
  }

  /** The read-through path keeps the cache's invariant, whatever the fetch
      gives. */
  lemma ReadThroughPreservesInvariant(st: Store, city: string, fetched: Result<string>, now: int)
    requires Invariant(st) && !IsBlank(city)
    ensures Invariant(ReadThrough(st, city, fetched, now).1)
  {
    if Misses(st, city, now) && fetched.Ok? && WriteCheck(city, fetched.value).None? {
      PutPreservesInvariant(st, city, fetched.value, now);
    }
  }

  class WeatherSdkImpl {
    const mode: Mode
    const interval: int
    const client: OpenWeatherApiClient
    const cache: WeatherCacheManager
    /** The polling updater; null in on-demand mode and after stopPolling. */
    var updater: WeatherUpdater?
    var isShutdown: bool

    /** The objects an operation of this instance may change. */
    function Footprint(): set<object>
      reads this
    {
      {this, cache, client} + (if updater == null then {} else {updater})
    }

    ghost predicate Valid()
      reads this, cache
    {
      && cache.Valid()
      && (updater != null ==> updater.cache == cache && updater.client == client && updater.interval == interval)
      && (isShutdown ==> updater == null)
    }

    /** The state of an instance just built for `apiKey`, `mode` and
        `interval`: not shut down, an empty cache, a client for the key that
        has sent nothing, and an updater exactly in polling mode. */
    ghost predicate Built(apiKey: string, mode: Mode, interval: int)
      reads this, cache, client, updater
    {
      && Valid() && !isShutdown
      && this.mode == mode && this.interval == interval
      && client.config == Config(apiKey, DefaultBaseUrl) && client.requests == []
      && cache.Model() == Empty
      && (updater != null <==> mode == Polling)
      && (updater != null ==> updater.scheduled && !updater.busy)
    }

    constructor (apiKey: string, mode: Mode, interval: int, network: (Request, int) -> Exchange)
      requires ConfigError(apiKey, mode, interval).None?
      ensures fresh(Footprint()) && Built(apiKey, mode, interval) && client.network == network
    {
      this.mode := mode;
      this.interval := interval;
      var c := new OpenWeatherApiClient(Config(apiKey, DefaultBaseUrl), network);
      var m := new WeatherCacheManager();
      client := c;
      cache := m;
      isShutdown := false;
      if mode == Polling {
        updater := new WeatherUpdater(m, c, interval);
      } else {
        updater := null;
      }
    }

    /** The constructor with its checks: a refused configuration creates
        nothing. */
    static method Create(apiKey: string, mode: Mode, interval: int, network: (Request, int) -> Exchange)
      returns (r: Result<WeatherSdkImpl>)
      ensures r.Fail? <==> ConfigError(apiKey, mode, interval).Some?
      ensures r.Fail? ==> r.error == ConfigError(apiKey, mode, interval).value
      ensures r.Ok? ==> fresh(r.value.Footprint()) && r.value.Built(apiKey, mode, interval)
    {
      var e := ConfigError(apiKey, mode, interval);
      if e.Some? {
        return Fail(e.value);
      }
      var sdk := new WeatherSdkImpl(apiKey, mode, interval, network);
      return Ok(sdk);
    }

    /** fetchAndCache: re-check the cache, else fetch, write and return the
        response. */
    method FetchAndCache(city: string, now: int) returns (r: Result<string>)
      requires Valid() && !IsBlank(city)
      modifies cache, client
      ensures Valid()
      ensures (r, cache.Model()) == ReadThrough(old(cache.Model()), city, client.Outcome(city, now), now)
      ensures client.requests
           == old(client.requests) + (if Misses(old(cache.Model()), city, now) then [RequestFor(client.config, city)] else [])
    {
      var cached := cache.GetCached(city, now);
      if cached.Ok? {
        return cached;
      }
      var fetched := client.FetchWeather(city, now);
      if fetched.Fail? {
        return fetched;
      }
      var written := cache.UpdateCache(city, fetched.value, now);
      if written.Fail? {
        return Fail(written.error);
      }
      return fetched;
    }

    /** getWeather: after the shutdown check and the city check, a cache
        hit, else fetchAndCache. */
    method GetWeather(city: string, now: int) returns (r: Result<string>)
      requires Valid()
      modifies cache, client
      ensures Valid()
      ensures isShutdown ==> r == Fail(ShutdownError) && cache.Model() == old(cache.Model()) && client.requests == old(client.requests)
      ensures !isShutdown && IsBlank(city) ==>
        r == Fail(InvalidCityError) && cache.Model() == old(cache.Model()) && client.requests == old(client.requests)
      ensures !isShutdown && !IsBlank(city) ==>
        && (r, cache.Model()) == ReadThrough(old(cache.Model()), city, client.Outcome(city, now), now)
        && client.requests
           == old(client.requests) + (if Misses(old(cache.Model()), city, now) then [RequestFor(client.config, city)] else [])
    {
      if isShutdown {
        return Fail(ShutdownError);
      }
      if IsBlank(city) {
        return Fail(InvalidCityError);
      }
      var cached := cache.GetCached(city, now);
      if cached.Ok? {
        return cached;
      }
      r := FetchAndCache(city, now);
    }

    /** updateWeather: the same path as getWeather without the answer; on a
        city the cache still serves it fetches nothing. */
    method UpdateWeather(city: string, now: int) returns (r: Result<()>)
      requires Valid()
      modifies cache, client
      ensures Valid()
      ensures isShutdown ==> r == Fail(ShutdownError) && cache.Model() == old(cache.Model()) && client.requests == old(client.requests)
      ensures !isShutdown && IsBlank(city) ==>
        r == Fail(InvalidCityError) && cache.Model() == old(cache.Model()) && client.requests == old(client.requests)
      ensures !isShutdown && !IsBlank(city) ==>
        var (answer, st') := ReadThrough(old(cache.Model()), city, client.Outcome(city, now), now);
        && cache.Model() == st'
        && r == (if answer.Ok? then Ok(()) else Fail(answer.error))
        && client.requests
           == old(client.requests) + (if Misses(old(cache.Model()), city, now) then [RequestFor(client.config, city)] else [])
    {
      if isShutdown {
        return Fail(ShutdownError);
      }
      if IsBlank(city) {
        return Fail(InvalidCityError);
      }
      var answer := FetchAndCache(city, now);
      r := if answer.Ok? then Ok(()) else Fail(answer.error);
    }

    /** getCachedCities: the cities a read would find now, as a list with
        each city once. */
    method GetCachedCities(now: int) returns (r: Result<seq<string>>)
      requires Valid()
      ensures isShutdown <==> r.Fail?
      ensures r.Fail? ==> r.error == ShutdownError
      ensures r.Ok? ==> NoDuplicates(r.value) && Elems(r.value) == LiveCities(cache.Model(), now)
      ensures r.Ok? ==> |r.value| <= MaxCities
    {
      if isShutdown {
        return Fail(ShutdownError);
      }
      var cities := Enumerate(cache.GetCachedCities(now));
      DistinctCard(cities);
      return Ok(cities);
    }

    /** clearCache: every later read misses. */
    method ClearCache() returns (r: Result<()>)
      modifies cache
      ensures old(Valid()) ==> Valid()
      ensures isShutdown ==> r == Fail(ShutdownError) && cache.Model() == old(cache.Model())
      ensures !isShutdown ==> r == Ok(()) && cache.Valid() && cache.Model() == Empty
    {
      if isShutdown {
        return Fail(ShutdownError);
      }
      cache.ClearCache();
      return Ok(());
    }

    /** isPollingEnabled: whether an updater is attached. */
    method IsPollingEnabled() returns (r: Result<bool>)
      ensures isShutdown ==> r == Fail(ShutdownError)
      ensures !isShutdown ==> r == Ok(updater != null)
    {
      if isShutdown {
        return Fail(ShutdownError);
      }
      return Ok(updater != null);
    }

    /** stopPolling: stops and detaches the updater; a second call finds
        none and does nothing. */
    method StopPolling() returns (r: Result<()>)
      modifies this, updater
      ensures old(Valid()) ==> Valid()
      ensures isShutdown == old(isShutdown)
      ensures old(isShutdown) ==> r == Fail(ShutdownError) && unchanged(this) && (updater != null ==> unchanged(updater))
      ensures !old(isShutdown) ==> r == Ok(()) && updater == null
      ensures !old(isShutdown) && old(updater) != null ==> !old(updater).scheduled && old(updater).busy == old(updater.busy)
    {
      if isShutdown {
        return Fail(ShutdownError);
      }
      if updater != null {
        updater.Stop();
        updater := null;
      }
      return Ok(());
    }

    /** shutdown: the first call stops polling, clears the cache and marks
        the instance shut down; any later call does nothing. */
    method Shutdown()
      modifies this, cache, updater
      ensures isShutdown
      ensures old(isShutdown) ==> unchanged(this, cache) && (updater != null ==> unchanged(updater))
      ensures !old(isShutdown) ==> Valid() && updater == null && cache.Model() == Empty
      ensures !old(isShutdown) && old(updater) != null ==> !old(updater).scheduled
    {
      if !isShutdown {
        var stopped := StopPolling();
        var cleared := ClearCache();
        isShutdown := true;
      }
    }
  }
}
