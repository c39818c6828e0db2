/** WeatherUpdater: the polling cycle that re-fetches every city the cache
    currently serves and writes each success back.

    The scheduler that runs the cycle every `interval` seconds and the
    thread pool that runs the fetches are not modelled: a cycle is one call
    of `UpdateWeather` that visits the snapshot's cities one after another
    (in an arbitrary order), and the try-lock is the flag `busy`. */
module Updater {
  import opened Common
  import opened Cache
  import opened ApiClient

  /** The size of the thread pool a cycle uses: one worker per city, at most
      five. */
  function PoolSize(n: nat): (r: nat)
    requires n > 0
    ensures 1 <= r <= 5 && r <= n
    ensures r == n || r == 5
  {
    if n < 5 then n else 5
  }

  /** The entry a refresh leaves: a successful fetch with a non-blank payload
      is written at `now`; a failed fetch, or a null payload the cache
      refuses, leaves the old entry. */
  function Refreshed(e: Entry, fetched: Result<string>, now: int): Entry {
    if fetched.Ok? && !IsBlank(fetched.value) then Entry(fetched.value, now) else e
  }

  /** The cache after the cities `done` of a cycle at `now` have been
      processed, `outcome` giving each city's fetch result. */
  ghost function Refresh(st: Store, done: set<string>, outcome: string -> Result<string>, now: int): (r: Store)
    ensures r.order == st.order && r.members == st.members && r.entries.Keys == st.entries.Keys
  {
    Store(map c | c in st.entries :: if c in done then Refreshed(st.entries[c], outcome(c), now) else st.entries[c],
          st.order, st.members)
  }

  /** A cycle over no city changes nothing. */
  lemma RefreshNothing(st: Store, outcome: string -> Result<string>, now: int)
    ensures Refresh(st, {}, outcome, now) == st
  {
    assert Refresh(st, {}, outcome, now).entries == st.entries;
  }

  /** A cycle never changes which cities are cached, nor their queue. */
  lemma RefreshPreservesInvariant(st: Store, done: set<string>, outcome: string -> Result<string>, now: int)
    requires Invariant(st)
    ensures Invariant(Refresh(st, done, outcome, now))
  {
    var r := Refresh(st, done, outcome, now);
    assert r.members == r.entries.Keys;
  }

  /** After a cycle over cities of the cache, a city whose fetch succeeded
      reads back its new payload, and every other city reads exactly as
      before. */
  lemma RefreshLookup(st: Store, done: set<string>, outcome: string -> Result<string>, now: int, city: string)
    requires done <= st.entries.Keys
    ensures Lookup(Refresh(st, done, outcome, now), city, now)
         == if city in done && outcome(city).Ok? && !IsBlank(outcome(city).value) && !IsBlank(city)
            then Ok(outcome(city).value) else Lookup(st, city, now)
  {
  }

  /** A cycle over the live cities keeps exactly those cities live: it
      neither revives nor loses a readable city. */
  lemma RefreshKeepsLiveCities(st: Store, outcome: string -> Result<string>, now: int)
    ensures var snapshot := LiveCities(st, now);
      LiveCities(Refresh(st, snapshot, outcome, now), now) == snapshot
  {
    var snapshot := LiveCities(st, now);
    var r := Refresh(st, snapshot, outcome, now);
    forall c ensures c in LiveCities(r, now) <==> c in snapshot {
      if c in st.entries {
        assert r.entries[c] == if c in snapshot then Refreshed(st.entries[c], outcome(c), now) else st.entries[c];
      }
    }
  }

  /** Processing one more city of the cycle is a cache write of its payload
      (updateCache on a member), or no change when the fetch failed or the
      payload is refused. */
  lemma RefreshStep(st: Store, done: set<string>, outcome: string -> Result<string>, now: int, city: string)
    requires Invariant(st) && city in st.members && city !in done && !IsBlank(city)
    ensures var prev := Refresh(st, done, outcome, now);
      Refresh(st, done + {city}, outcome, now)
      == if outcome(city).Ok? && WriteCheck(city, outcome(city).value).None?
         then Put(prev, city, outcome(city).value, now) else prev
  {
    var prev := Refresh(st, done, outcome, now);
    var next := Refresh(st, done + {city}, outcome, now);
    RefreshPreservesInvariant(st, done, outcome, now);
    if outcome(city).Ok? && WriteCheck(city, outcome(city).value).None? {
      PutExistingCity(prev, city, outcome(city).value, now);
      assert next.entries == prev.entries[city := Entry(outcome(city).value, now)];
    } else {
      assert next.entries == prev.entries;
    }
  }

  /** The requests sent for `cities`, in order. */
  function RequestsFor(c: Config, cities: seq<string>): (qs: seq<Request>)
    ensures |qs| == |cities| && forall i :: 0 <= i < |cities| ==> qs[i] == RequestFor(c, cities[i])
  {
    if cities == [] then [] else RequestsFor(c, cities[..|cities| - 1]) + [RequestFor(c, cities[|cities| - 1])]
  }

  lemma RequestsForAppend(log: seq<Request>, c: Config, cities: seq<string>, city: string)
    ensures log + RequestsFor(c, cities + [city]) == (log + RequestsFor(c, cities)) + [RequestFor(c, city)]
  {
    assert (cities + [city])[..|cities|] == cities;
    assert RequestsFor(c, cities + [city]) == RequestsFor(c, cities) + [RequestFor(c, city)];
  }

  class WeatherUpdater {
    const cache: WeatherCacheManager
    const client: OpenWeatherApiClient
    const interval: int
    /** Whether the scheduler still runs cycles. */
    var scheduled: bool
    /** Whether a cycle holds the lock. */
    var busy: bool

    constructor (cache: WeatherCacheManager, client: OpenWeatherApiClient, interval: int)
      requires interval > 0
      ensures this.cache == cache && this.client == client && this.interval == interval
      ensures scheduled && !busy
    {
      this.cache := cache;
      this.client := client;
      this.interval := interval;
      scheduled := true;
      busy := false;
    }

    /** The constructor's guard: a non-positive interval is refused. */
    static method Create(cache: WeatherCacheManager, client: OpenWeatherApiClient, interval: int)
      returns (r: Result<WeatherUpdater>)
      ensures r.Fail? <==> interval <= 0
      ensures r.Fail? ==> r.error == Error(SdkError, PositiveIntervalMessage)
      ensures r.Ok? ==> (fresh(r.value) && r.value.cache == cache && r.value.client == client
                         && r.value.interval == interval && r.value.scheduled && !r.value.busy)
    {
      if interval <= 0 {
        return Fail(Error(SdkError, PositiveIntervalMessage));
      }
      var u := new WeatherUpdater(cache, client, interval);
      return Ok(u);
    }

    /** stop: no further cycles are scheduled; stopping twice is harmless. */
    method Stop()
      modifies this
      ensures !scheduled && busy == old(busy)
    {
      scheduled := false;
    }

    /** The fetch result the client gives for a city at `now`. */
    function Outcome(now: int): string -> Result<string> {
      city => client.Outcome(city, now)
    }

    /** One task of the cycle: fetch the city, write a success, swallow a
        failure. `sent` are the cities already processed, `log0` the request
        log before the cycle. */
    method Visit(city: string, now: int, ghost st0: Store, ghost log0: seq<Request>, ghost sent: seq<string>)
      requires Invariant(st0) && city in st0.members
      requires NoDuplicates(sent) && city !in sent
      requires cache.Model() == Refresh(st0, Elems(sent), Outcome(now), now)
      requires client.requests == log0 + RequestsFor(client.config, sent)
      modifies cache, client
      ensures cache.Model() == Refresh(st0, Elems(sent + [city]), Outcome(now), now)
      ensures client.requests == log0 + RequestsFor(client.config, sent + [city])
    {
      RefreshPreservesInvariant(st0, Elems(sent), Outcome(now), now);
      var fetched := client.FetchWeather(city, now);
      RefreshStep(st0, Elems(sent), Outcome(now), now, city);
      if fetched.Ok? {
        var written := cache.UpdateCache(city, fetched.value, now);
      }
      ElemsAppend(sent, city);
      RequestsForAppend(log0, client.config, sent, city);
    }

    /** updateWeather: one polling cycle at time `now`. A call while a cycle
        holds the lock changes nothing. Otherwise the live cities are taken
        as a snapshot; each is fetched exactly once (`sent` is the order the
        requests went out in), each success is written back, each failure is
        swallowed, and the lock is released. */
    method UpdateWeather(now: int) returns (ghost sent: seq<string>)
      requires cache.Valid()
      modifies this, cache, client
      ensures cache.Valid() && busy == old(busy) && scheduled == old(scheduled)
      ensures old(busy) ==> cache.Model() == old(cache.Model()) && sent == []
      ensures !old(busy) ==>
        var snapshot := LiveCities(old(cache.Model()), now);
        && cache.Model() == Refresh(old(cache.Model()), snapshot, Outcome(now), now)
        && NoDuplicates(sent) && Elems(sent) == snapshot
      ensures client.requests == old(client.requests) + RequestsFor(client.config, sent)
    {
      sent := [];
      if busy {
        return;
      }
      busy := true;
      var snapshot := cache.GetCachedCities(now);
      if snapshot == {} {
        RefreshNothing(cache.Model(), Outcome(now), now);
        busy := false;
        return;
      }
      sent := RunCycle(snapshot, now);
      busy := false;
    }

    /** The tasks of one cycle over `snapshot`, one after another, in the
        set's iteration order. */
    method RunCycle(snapshot: set<string>, now: int) returns (ghost sent: seq<string>)
      requires cache.Valid() && snapshot <= cache.Model().members
      modifies cache, client
      ensures cache.Valid()
      ensures cache.Model() == Refresh(old(cache.Model()), snapshot, Outcome(now), now)
      ensures NoDuplicates(sent) && Elems(sent) == snapshot
      ensures client.requests == old(client.requests) + RequestsFor(client.config, sent)
    {
      ghost var st0 := cache.Model();
      ghost var log0 := client.requests;
      var cities := Enumerate(snapshot);
      RefreshNothing(st0, Outcome(now), now);
      for i := 0 to |cities|
        invariant cache.Model() == Refresh(st0, Elems(cities[..i]), Outcome(now), now)
        invariant client.requests == log0 + RequestsFor(client.config, cities[..i])
      {
        NoDuplicatesSlice(cities, 0, i);
        Visit(cities[i], now, st0, log0, cities[..i]);
        assert cities[..i] + [cities[i]] == cities[..i + 1];
      }
      assert cities[..|cities|] == cities;
      RefreshPreservesInvariant(st0, snapshot, Outcome(now), now);
      sent := cities;
    }
  }
}
