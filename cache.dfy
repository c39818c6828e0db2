/** WeatherCacheManager: a city -> weather-string cache that holds at most ten
    cities, evicts in order of first insertion through an explicit queue, and
    makes an entry unreadable ten minutes after its last write.

    The cache's three structures (Caffeine's map with its write times, the
    queue `cityOrder` and the set `citySet`) are modelled as one value `Store`
    with specification functions on it; the class `WeatherCacheManager` updates
    the three fields in place and is proved against those functions. The clock
    (Caffeine's Ticker) is the explicit parameter `now`, in nanoseconds. */
module Cache {
  import opened Common

  /** MAX_CITIES. */
  const MaxCities: nat := 10
  /** EXPIRATION_TIME (ten minutes) in the Ticker's nanoseconds. */
  const ExpirationNanos: int := 600_000_000_000

  /** A cached weather string with the time of its last write. */
  datatype Entry = Entry(data: string, writtenAt: int)

  /** expireAfterWrite: an entry is readable while less than the expiration
      time has passed since its last write. */
  predicate Live(e: Entry, now: int) {
    now - e.writtenAt < ExpirationNanos
  }

  /** The cache map (with write times), the insertion-order queue and the
      membership set. Expired entries stay in all three until evicted or
      cleared: Caffeine only hides them from reads. */
  datatype Store = Store(entries: map<string, Entry>, order: seq<string>, members: set<string>)

  const Empty := Store(map[], [], {})

  /** The cities a sequence holds. */
  function Elems(s: seq<string>): set<string> {
    set c | c in s
  }

  /** What every operation keeps: the queue has no duplicates and holds exactly
      the members, the members are the cached keys, at most MaxCities of them,
      and none is blank (writes reject blank names). */
  ghost predicate Invariant(st: Store) {
    && NoDuplicates(st.order)
    && Elems(st.order) == st.members
    && st.members == st.entries.Keys
    && |st.order| <= MaxCities
    && (forall c :: c in st.members ==> !IsBlank(c))
  }

  /** The CityNotFoundException of a read that misses. */
  function NotFoundError(city: string): Error {
    Error(CityNotFound, "Weather for city '" + city + "' is not found in cache")
  }

  /** getCached: the live entry's data, else CityNotFound; a blank name is
      rejected first. */
  function Lookup(st: Store, city: string, now: int): Result<string> {
    if IsBlank(city) then Fail(InvalidCityError)
    else if city in st.entries && Live(st.entries[city], now) then Ok(st.entries[city].data)
    else Fail(NotFoundError(city))
  }

  /** The checks updateCache makes before it changes anything. */
  function WriteCheck(city: string, data: string): (r: Option<Error>)
    ensures r.None? <==> !IsBlank(city) && !IsBlank(data)
    ensures IsBlank(city) ==> r == Some(InvalidCityError)
    ensures !IsBlank(city) && IsBlank(data) ==> r.Some? && r.value.kind == SdkError
  {
    if IsBlank(city) then Some(InvalidCityError)
    else if IsBlank(data) then Some(Error(SdkError, "Weather cannot be null or empty for city: " + city))
    else None
  }

  /** How many queue heads an over-full queue of length n loses. */
  function Overflow(n: nat): nat {
    if n > MaxCities then n - MaxCities else 0
  }

  /** removeOldestEntry: poll the queue head, and drop it from the map and the
      set, while the queue is over capacity. It removes exactly the oldest
      Overflow(|order|) cities and nothing else. */
  function EvictOldest(st: Store): (r: Store)
    ensures var k := Overflow(|st.order|);
      && r.order == st.order[k..]
      && r.entries == st.entries - Elems(st.order[..k])
      && r.members == st.members - Elems(st.order[..k])
    decreases |st.order|
  {
    if |st.order| <= MaxCities then
      assert st.order[..0] == [];
      st
    else
      var oldest := st.order[0];
      EvictStep(st.order, Overflow(|st.order|));
      MapMinus(st.entries, {oldest}, Elems(st.order[1..][..Overflow(|st.order|) - 1]));
      EvictOldest(Store(st.entries - {oldest}, st.order[1..], st.members - {oldest}))
  }

  /** Dropping the first k of s is dropping its head, then k - 1 more. */
  lemma EvictStep(s: seq<string>, k: nat)
    requires 0 < k <= |s|
    ensures Elems(s[..k]) == {s[0]} + Elems(s[1..][..k - 1])
    ensures s[1..][k - 1..] == s[k..]
  {
    assert s[..k] == [s[0]] + s[1..][..k - 1];
  }

  lemma MapMinus(m: map<string, Entry>, a: set<string>, b: set<string>)
    ensures m - a - b == m - (a + b)
  {
  }

  /** The state after an updateCache that passed WriteCheck: the city is added
      to the set, its entry is (re)written with the current time, it joins the
      back of the queue only if it was not a member, and an over-full queue is
      trimmed from the front. */
  function Put(st: Store, city: string, data: string, now: int): Store {
    var isNew := city !in st.members;
    var added := Store(st.entries[city := Entry(data, now)],
                       if isNew then st.order + [city] else st.order,
                       st.members + {city});
    if |added.order| > MaxCities then EvictOldest(added) else added
  }

  /** The cities a read at `now` finds (Caffeine's key-set view skips expired
      entries). */
  function LiveCities(st: Store, now: int): set<string> {
    set c | c in st.entries && Live(st.entries[c], now)
  }

  lemma ElemsAppend(s: seq<string>, x: string)
    ensures Elems(s + [x]) == Elems(s) + {x}
  {
  }

  lemma ElemsTail(s: seq<string>)
    requires |s| > 0 && NoDuplicates(s)
    ensures Elems(s[1..]) == Elems(s) - {s[0]}
  {
    assert s == [s[0]] + s[1..];
    assert forall c :: c in s[1..] ==> c != s[0];
  }

  lemma NoDuplicatesSlice(s: seq<string>, i: nat, j: nat)
    requires NoDuplicates(s) && i <= j <= |s|
    ensures NoDuplicates(s[i..j])
  {
    forall a, b | 0 <= a < b < |s[i..j]| ensures s[i..j][a] != s[i..j][b] {
      assert s[i..j][a] == s[i + a] && s[i..j][b] == s[i + b];
    }
  }

  lemma NoDuplicatesAppend(s: seq<string>, x: string)
    requires NoDuplicates(s) && x !in s
    ensures NoDuplicates(s + [x])
  {
  }

  /** The cities of a set in some iteration order, each once: the iteration
      over the cached key set in WeatherUpdater.updateWeather and
      WeatherSdkImpl.getCachedCities. */
  method Enumerate(s: set<string>) returns (xs: seq<string>)
    ensures NoDuplicates(xs) && Elems(xs) == s
  {
    xs := [];
    var rest := s;
    while rest != {}
      invariant NoDuplicates(xs) && Elems(xs) + rest == s && Elems(xs) !! rest
      decreases rest
    {
      var c :| c in rest;
      NoDuplicatesAppend(xs, c);
      ElemsAppend(xs, c);
      xs := xs + [c];
      rest := rest - {c};
    }
  }

  /** Writing a new city appends it to the queue; when the queue was full, the
      head (the oldest city by first insertion) and only it is evicted. */
  lemma PutNewCity(st: Store, city: string, data: string, now: int)
    requires Invariant(st) && WriteCheck(city, data).None? && city !in st.members
    ensures var r := Put(st, city, data, now);
      if |st.order| < MaxCities then
        && r.order == st.order + [city]
        && r.entries == st.entries[city := Entry(data, now)]
        && r.members == st.members + {city}
      else
        && r.order == st.order[1..] + [city]
        && r.entries == (st.entries - {st.order[0]})[city := Entry(data, now)]
        && r.members == (st.members - {st.order[0]}) + {city}
  {
    if |st.order| == MaxCities {
      var added := st.order + [city];
      var o := st.order[0];
      assert added[..1] == [o];
      assert Elems(added[..1]) == {o};
      assert added[1..] == st.order[1..] + [city];
      assert o in st.members;
    }
  }

  /** Re-writing a member replaces its data and restarts its expiry; the queue
      (so its eviction position) and the set are unchanged. */
  lemma PutExistingCity(st: Store, city: string, data: string, now: int)
    requires Invariant(st) && city in st.members
    ensures Put(st, city, data, now) == Store(st.entries[city := Entry(data, now)], st.order, st.members)
  {
    assert st.members + {city} == st.members;
  }

  /** Every write keeps the invariant; in particular the queue never holds
      more than MaxCities cities. */
  lemma PutPreservesInvariant(st: Store, city: string, data: string, now: int)
    requires Invariant(st) && WriteCheck(city, data).None?
    ensures Invariant(Put(st, city, data, now))
  {
    if city in st.members {
      PutExistingCity(st, city, data, now);
    } else {
      PutNewCity(st, city, data, now);
      var e := Entry(data, now);
      if |st.order| < MaxCities {
        AppendKeepsInvariant(st, city, e);
      } else {
        SlideKeepsInvariant(st, city, e);
      }
    }
  }

  lemma AppendKeepsInvariant(st: Store, city: string, e: Entry)
    requires Invariant(st) && !IsBlank(city) && city !in st.members && |st.order| < MaxCities
    ensures Invariant(Store(st.entries[city := e], st.order + [city], st.members + {city}))
  {
    ElemsAppend(st.order, city);
    NoDuplicatesAppend(st.order, city);
  }

  lemma SlideKeepsInvariant(st: Store, city: string, e: Entry)
    requires Invariant(st) && !IsBlank(city) && city !in st.members && |st.order| == MaxCities
    ensures var o := st.order[0];
      Invariant(Store((st.entries - {o})[city := e], st.order[1..] + [city], (st.members - {o}) + {city}))
  {
    var tail := st.order[1..];
    ElemsTail(st.order);
    ElemsAppend(tail, city);
    NoDuplicatesSlice(st.order, 1, |st.order|);
    NoDuplicatesAppend(tail, city);
  }

  /** Round trip: a read of a city just written returns exactly the written
      string until ten minutes have passed, and misses from then on, even
      though the city was not evicted. */
  lemma PutThenLookup(st: Store, city: string, data: string, written: int, now: int)
    requires Invariant(st) && WriteCheck(city, data).None?
    ensures Lookup(Put(st, city, data, written), city, now)
         == if now - written < ExpirationNanos then Ok(data) else Fail(NotFoundError(city))
  {
    var r := Put(st, city, data, written);
    if city in st.members {
      PutExistingCity(st, city, data, written);
    } else {
      PutNewCity(st, city, data, written);
    }
    assert city in r.entries && r.entries[city] == Entry(data, written);
  }

  lemma {:induction false} DistinctCard(s: seq<string>)
    requires NoDuplicates(s)
    ensures |Elems(s)| == |s|
  {
    if |s| > 0 {
      NoDuplicatesSlice(s, 1, |s|);
      DistinctCard(s[1..]);
      ElemsTail(s);
      assert Elems(s) == Elems(s[1..]) + {s[0]};
    }
  }

  lemma SubsetCard(a: set<string>, b: set<string>)
    requires a <= b
    ensures |a| <= |b|
  {
    assert b == a + (b - a);
  }

  /** At most MaxCities cities are ever readable. */
  lemma LiveCitiesBounded(st: Store, now: int)
    requires Invariant(st)
    ensures |LiveCities(st, now)| <= MaxCities
  {
    DistinctCard(st.order);
    SubsetCard(LiveCities(st, now), st.members);
  }

  /** `states` are the successive states of writing `cities` (with `data`)
      one after another into an empty cache at time `now`. */
  ghost predicate Writes(states: seq<Store>, cities: seq<string>, data: seq<string>, now: int) {
    && |states| == |cities| + 1 && |cities| == |data|
    && states[0] == Empty
    && forall i :: 0 <= i < |cities| ==> states[i + 1] == Put(states[i], cities[i], data[i], now)
  }

  /** The state after writing the first n of `cities`: the queue holds the
      last min(n, MaxCities) of them in order of insertion, each with its data. */
  ghost predicate Filled(r: Store, cities: seq<string>, data: seq<string>, n: nat, now: int)
    requires n <= |cities| == |data|
  {
    && Invariant(r)
    && r.order == cities[Overflow(n)..n]
    && Holds(r, cities, data, Overflow(n), n, now)
  }

  /** Cities lo..hi-1 are cached with their data, written at `now`. */
  ghost predicate Holds(r: Store, cities: seq<string>, data: seq<string>, lo: nat, hi: nat, now: int)
    requires lo <= hi <= |cities| == |data|
  {
    forall i :: lo <= i < hi ==> cities[i] in r.entries && r.entries[cities[i]] == Entry(data[i], now)
  }

  /** One more write into a window that is not full yet. */
  lemma FillNotFull(prev: Store, r: Store, cities: seq<string>, data: seq<string>, n: nat, now: int)
    requires 0 < n <= MaxCities && n <= |cities| == |data|
    requires prev.order == cities[..n - 1] && Holds(prev, cities, data, 0, n - 1, now)
    requires NoDuplicates(cities)
    requires r.order == prev.order + [cities[n - 1]]
    requires r.entries == prev.entries[cities[n - 1] := Entry(data[n - 1], now)]
    ensures r.order == cities[..n] && Holds(r, cities, data, 0, n, now)
  {
    assert cities[..n - 1] + [cities[n - 1]] == cities[..n];
    forall i | 0 <= i < n - 1
      ensures cities[i] in r.entries && r.entries[cities[i]] == Entry(data[i], now)
    {
      assert cities[i] in prev.entries && prev.entries[cities[i]] == Entry(data[i], now);
    }
  }

  /** One more write into a full window: the window slides by one. */
  lemma FillFull(prev: Store, r: Store, cities: seq<string>, data: seq<string>, n: nat, now: int)
    requires MaxCities < n <= |cities| == |data|
    requires prev.order == cities[n - 1 - MaxCities..n - 1]
    requires Holds(prev, cities, data, n - 1 - MaxCities, n - 1, now)
    requires NoDuplicates(cities)
    requires r.order == prev.order[1..] + [cities[n - 1]]
    requires r.entries == (prev.entries - {prev.order[0]})[cities[n - 1] := Entry(data[n - 1], now)]
    ensures r.order == cities[n - MaxCities..n] && Holds(r, cities, data, n - MaxCities, n, now)
  {
    assert prev.order[1..] == cities[n - MaxCities..n - 1];
    assert cities[n - MaxCities..n - 1] + [cities[n - 1]] == cities[n - MaxCities..n];
    forall i | n - MaxCities <= i < n - 1
      ensures cities[i] in r.entries && r.entries[cities[i]] == Entry(data[i], now)
    {
      assert cities[i] in prev.entries && prev.entries[cities[i]] == Entry(data[i], now);
    }
  }

  /** A city of a duplicate-free sequence is in no window that excludes its
      position. */
  lemma NotInWindow(cities: seq<string>, lo: nat, hi: nat, j: nat)
    requires NoDuplicates(cities) && lo <= hi <= |cities| && j < |cities| && !(lo <= j < hi)
    ensures cities[j] !in Elems(cities[lo..hi])
  {
    forall c | c in cities[lo..hi] ensures c != cities[j] {
      var i :| 0 <= i < hi - lo && cities[lo..hi][i] == c;
      assert c == cities[lo + i];
    }
  }

  lemma FillStep(prev: Store, r: Store, cities: seq<string>, data: seq<string>, n: nat, now: int)
    requires 0 < n <= |cities| == |data| && NoDuplicates(cities)
    requires WriteCheck(cities[n - 1], data[n - 1]).None?
    requires Filled(prev, cities, data, n - 1, now)
    requires r == Put(prev, cities[n - 1], data[n - 1], now)
    ensures Filled(r, cities, data, n, now)
  {
    var city, d := cities[n - 1], data[n - 1];
    var k := Overflow(n - 1);
    NotInWindow(cities, k, n - 1, n - 1);
    PutNewCity(prev, city, d, now);
    PutPreservesInvariant(prev, city, d, now);
    if n - 1 < MaxCities {
      FillNotFull(prev, r, cities, data, n, now);
    } else {
      FillFull(prev, r, cities, data, n, now);
    }
  }

  lemma FilledEmpty(cities: seq<string>, data: seq<string>, now: int)
    requires |cities| == |data|
    ensures Filled(Empty, cities, data, 0, now)
  {
    assert Elems([]) == {};
  }

  lemma WriteAllFilled(states: seq<Store>, cities: seq<string>, data: seq<string>, now: int)
    requires Writes(states, cities, data, now) && NoDuplicates(cities)
    requires forall i :: 0 <= i < |cities| ==> WriteCheck(cities[i], data[i]).None?
    ensures Filled(states[|cities|], cities, data, |cities|, now)
  {
    FilledEmpty(cities, data, now);
    var n := 0;
    while n < |cities|
      invariant n <= |cities|
      invariant Filled(states[n], cities, data, n, now)
    {
      FillStep(states[n], states[n + 1], cities, data, n + 1, now);
      n := n + 1;
    }
  }

  /** After writing n distinct cities into an empty cache, the first
      n - MaxCities miss and the others read back their data (writing
      City1..City12 leaves City1 and City2 unreadable and City3..City12
      readable). */
  lemma WriteAllLookup(states: seq<Store>, cities: seq<string>, data: seq<string>, now: int)
    requires Writes(states, cities, data, now) && NoDuplicates(cities)
    requires forall i :: 0 <= i < |cities| ==> WriteCheck(cities[i], data[i]).None?
    ensures var r := states[|cities|];
      forall i :: 0 <= i < |cities| ==>
        Lookup(r, cities[i], now) == if i < Overflow(|cities|) then Fail(NotFoundError(cities[i])) else Ok(data[i])
  {
    var n := |cities|;
    WriteAllFilled(states, cities, data, now);
    var r := states[n];
    var k := Overflow(n);
    forall i | 0 <= i < n
      ensures Lookup(r, cities[i], now) == if i < k then Fail(NotFoundError(cities[i])) else Ok(data[i])
    {
      assert WriteCheck(cities[i], data[i]).None?;
      if i < k {
        assert cities[i] !in r.order by {
          forall j | 0 <= j < |r.order| ensures r.order[j] != cities[i] {
            assert r.order[j] == cities[k + j];
          }
        }
        assert cities[i] !in r.entries;
      }
    }
  }

  class WeatherCacheManager {
    var entries: map<string, Entry>   // the Caffeine cache, with write times
    var order: seq<string>            // cityOrder
    var members: set<string>          // citySet

    function Model(): Store
      reads this
    {
      Store(entries, order, members)
    }

    ghost predicate Valid()
      reads this
    {
      Invariant(Model())
    }

    constructor ()
      ensures Valid() && Model() == Empty
    {
      entries, order, members := map[], [], {};
    }

    /** getCached. */
    method GetCached(city: string, now: int) returns (r: Result<string>)
      ensures r == Lookup(Model(), city, now)
    {
      if IsBlank(city) {
        return Fail(InvalidCityError);
      }
      if city in entries && Live(entries[city], now) {
        return Ok(entries[city].data);
      }
      return Fail(NotFoundError(city));
    }

    /** updateCache: both checks come before any change; a failed check leaves
        the cache as it was. */
    method UpdateCache(city: string, data: string, now: int) returns (r: Result<()>)
      requires Valid()
      modifies this
      ensures Valid()
      ensures WriteCheck(city, data).Some? ==> r == Fail(WriteCheck(city, data).value) && Model() == old(Model())
      ensures WriteCheck(city, data).None? ==> r == Ok(()) && Model() == Put(old(Model()), city, data, now)
    {
      if IsBlank(city) {
        return Fail(InvalidCityError);
      }
      if IsBlank(data) {
        return Fail(Error(SdkError, "Weather cannot be null or empty for city: " + city));
      }
      PutPreservesInvariant(Model(), city, data, now);
      var alreadyExists := city in members;
      members := members + {city};
      entries := entries[city := Entry(data, now)];
      if !alreadyExists {
        order := order + [city];
      }
      if |order| > MaxCities {
        RemoveOldestEntry();
      }
      return Ok(());
    }

    /** getCachedCities: the cities a read would find now. */
    function GetCachedCities(now: int): (cities: set<string>)
      requires Valid()
      reads this
      ensures forall c :: c in cities <==> Lookup(Model(), c, now).Ok?
      ensures |cities| <= MaxCities
    {
      LiveCitiesBounded(Model(), now);
      LiveCities(Model(), now)
    }

    /** clearCache: empties the map, the queue and the set. */
    method ClearCache()
      modifies this
      ensures Valid() && Model() == Empty
    {
      entries := map[];
      order := [];
      members := {};
    }

    /** removeOldestEntry. */
    method RemoveOldestEntry()
      modifies this
      ensures Model() == EvictOldest(old(Model()))
    {
      while |order| > MaxCities
        invariant EvictOldest(Model()) == EvictOldest(old(Model()))
        decreases |order|
      {
        // poll() on a non-empty queue never returns null here
        var oldest := order[0];
        order := order[1..];
        entries := entries - {oldest};
        members := members - {oldest};
      }
    }
  }
}
