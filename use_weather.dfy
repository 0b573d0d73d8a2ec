/** The composable of `src/composables/useWeather.ts`: a module-wide cache
    of answers keyed by city, shared by every instance, and per-instance
    state (data, loading flag, error, time of the data). The clock readings
    and the outcome of `fetchWeatherData` are parameters of the operations
    that use them. */
module UseWeather {
  import opened Wrappers
  import opened WeatherApi

  /** How long a cached answer stays usable: ten minutes, in milliseconds. */
  const CACHE_DURATION: int := 10 * 60 * 1000

  const INVALID_CITY_MESSAGE: string := "Valid city with name and country is required"
  const UNKNOWN_ERROR_MESSAGE: string := "An unknown error occurred"

  /** A cached answer and the time it was stored. */
  datatype CacheEntry = CacheEntry(data: WeatherApiResponse, timestamp: int)

  /** The error the state exposes: a message and, for API errors, a code. */
  datatype WeatherError = WeatherError(message: string, code: Option<int>)

  /** What a `catch` can receive: a `WeatherApiError`, another `Error`
      (with its message), or a value that is not an `Error` at all. */
  datatype Thrown = ApiFailure(apiError: ApiError) | PlainError(message: string) | NonError

  /** `getCacheKey`: `name,country`. */
  function CacheKey(city: City): string
  {
    city.name + "," + city.country
  }

  /** Cities whose names have no comma get keys of their own. */
  lemma CacheKeyInjective(a: City, b: City)
    requires ',' !in a.name && ',' !in b.name
    ensures CacheKey(a) == CacheKey(b) <==> a == b
  {
    if CacheKey(a) == CacheKey(b) {
      var k := CacheKey(a);
      assert k[|a.name|] == ',';
      assert k[|b.name|] == ',';
      assert a.name == k[..|a.name|];
      assert b.name == k[..|b.name|];
      assert a.country == k[|a.name| + 1..];
      assert b.country == k[|b.name| + 1..];
    }
  }

  /** A comma in a name lets two different cities share a cache entry. */
  lemma CacheKeyCollision()
    ensures var a, b := City("Foo,Bar", "X"), City("Foo", "Bar,X");
            a != b && CacheKey(a) == CacheKey(b)
  {
    var a, b := City("Foo,Bar", "X"), City("Foo", "Bar,X");
    assert a.name != b.name by {
      assert |a.name| == 7 && |b.name| == 3;
    }
  }

  /** `isCacheValid`: stored less than ten minutes before `now`. */
  predicate IsCacheValid(timestamp: int, now: int)
  {
    now - timestamp < CACHE_DURATION
  }

  /** `!cityData.name || !cityData.country` fails. */
  predicate ValidCity(city: City)
  {
    city.name != "" && city.country != ""
  }

  /** The entry `fetchWeather` serves without fetching: present and fresh. */
  function CacheLookup(entries: map<string, CacheEntry>, key: string, now: int): (r: Option<CacheEntry>)
    ensures r.Some? ==> key in entries && r.value == entries[key]
  {
    if key in entries && IsCacheValid(entries[key].timestamp, now) then Some(entries[key]) else None
  }

  /** An answer stored at `t` is served for the same key exactly until
      `t + CACHE_DURATION` (excluded), and storing it leaves every other
      key's lookup as it was. */
  lemma StoredEntryServedForTenMinutes(
    entries: map<string, CacheEntry>, key: string, data: WeatherApiResponse, t: int, other: string, now: int)
    ensures CacheLookup(entries[key := CacheEntry(data, t)], key, now)
              == if now < t + 600000 then Some(CacheEntry(data, t)) else None
    ensures other != key ==>
              CacheLookup(entries[key := CacheEntry(data, t)], other, now) == CacheLookup(entries, other, now)
  {
  }

  /** `setError`: an API error keeps its message and code; any other
      `Error` keeps its message; anything else becomes the fixed unknown
      error message. Only API errors carry a code. */
  function ErrorFor(error: Thrown): (e: WeatherError)
    ensures e.code.Some? ==> error.ApiFailure? && e.code == error.apiError.code
    ensures error.ApiFailure? ==> e == WeatherError(error.apiError.message, error.apiError.code)
    ensures error.PlainError? ==> e == WeatherError(error.message, None)
    ensures error.NonError? ==> e == WeatherError(UNKNOWN_ERROR_MESSAGE, None)
  {
    match error
    case ApiFailure(apiError) => WeatherError(apiError.message, apiError.code)
    case PlainError(message) => WeatherError(message, None)
    case NonError => WeatherError(UNKNOWN_ERROR_MESSAGE, None)
  }

  /** The module-level `weatherCache` map, shared by all instances. */
  class WeatherCache {
    var entries: map<string, CacheEntry>

    constructor()
      ensures entries == map[]
    {
      entries := map[];
    }
  }

  /** The state of one `useWeather` instance, bound to the shared cache. */
  class Weather {
    const cache: WeatherCache
    var data: Option<WeatherApiResponse>
    var loading: bool
    var error: Option<WeatherError>
    /** Epoch milliseconds of the data shown. */
    var lastUpdated: Option<int>

    constructor(cache: WeatherCache)
      ensures this.cache == cache
      ensures data.None? && !loading && error.None? && lastUpdated.None?
    {
      this.cache := cache;
      data := None;
      loading := false;
      error := None;
      lastUpdated := None;
    }

    /** `clearError`. */
    method ClearError()
      modifies this
      ensures error.None?
      ensures data == old(data) && loading == old(loading) && lastUpdated == old(lastUpdated)
    {
      error := None;
    }

    /** `setError`. */
    method SetError(thrown: Thrown)
      modifies this
      ensures error == Some(ErrorFor(thrown))
      ensures data == old(data) && loading == old(loading) && lastUpdated == old(lastUpdated)
    {
      error := Some(ErrorFor(thrown));
    }

    /** `fetchWeather`, run to completion. `now` is the clock when the call
        starts, `outcome` what `fetchWeatherData` settles with and `doneAt`
        the clock when it settles. `fetched` tells whether
        `fetchWeatherData` was called: exactly for a valid city without a
        fresh cache entry. */
    method FetchWeather(cityData: City, now: int, outcome: Result<WeatherApiResponse, Thrown>, doneAt: int)
      returns (fetched: bool)
      modifies this, cache
      ensures fetched <==> ValidCity(cityData) && CacheLookup(old(cache.entries), CacheKey(cityData), now).None?
      // an invalid city only sets the validation error
      ensures !ValidCity(cityData) ==>
                && error == Some(WeatherError(INVALID_CITY_MESSAGE, None))
                && data == old(data) && loading == old(loading) && lastUpdated == old(lastUpdated)
                && cache.entries == old(cache.entries)
      // a fresh entry is shown with its own time, and the error cleared
      ensures ValidCity(cityData) && CacheLookup(old(cache.entries), CacheKey(cityData), now).Some? ==>
                var entry := old(cache.entries)[CacheKey(cityData)];
                && data == Some(entry.data) && lastUpdated == Some(entry.timestamp)
                && error.None? && loading == old(loading)
                && cache.entries == old(cache.entries)
      // a fetched answer is shown and stored with the completion time
      ensures fetched && outcome.Success? ==>
                && data == Some(outcome.value) && lastUpdated == Some(doneAt)
                && error.None? && !loading
                && cache.entries == old(cache.entries)[CacheKey(cityData) := CacheEntry(outcome.value, doneAt)]
      // a failed fetch keeps the old data and reports the error
      ensures fetched && outcome.Failure? ==>
                && data == old(data) && lastUpdated == old(lastUpdated)
                && error == Some(ErrorFor(outcome.error)) && !loading
                && cache.entries == old(cache.entries)
    {
      if cityData.name == "" || cityData.country == "" {
        SetError(PlainError(INVALID_CITY_MESSAGE));
        return false;
      }
      var cacheKey := CacheKey(cityData);
      if cacheKey in cache.entries && IsCacheValid(cache.entries[cacheKey].timestamp, now) {
        var cached := cache.entries[cacheKey];
        data := Some(cached.data);
        lastUpdated := Some(cached.timestamp);
        ClearError();
        return false;
      }
      loading := true;
      ClearError();
      match outcome {
        case Success(weatherData) =>
          data := Some(weatherData);
          lastUpdated := Some(doneAt);
          cache.entries := cache.entries[cacheKey := CacheEntry(weatherData, doneAt)];
        case Failure(thrown) =>
          SetError(thrown);
      }
      loading := false;
      return true;
    }

    /** `refreshWeather`: with the city currently bound (`None` when there
        is none), drop its cache entry and fetch, so that a valid city is
        always fetched anew. */
    method RefreshWeather(current: Option<City>, now: int, outcome: Result<WeatherApiResponse, Thrown>, doneAt: int)
      returns (fetched: bool)
      modifies this, cache
      ensures current.None? ==>
                && !fetched
                && data == old(data) && loading == old(loading) && error == old(error)
                && lastUpdated == old(lastUpdated) && cache.entries == old(cache.entries)
      ensures current.Some? ==> (fetched <==> ValidCity(current.value))
      ensures current.Some? && !ValidCity(current.value) ==>
                && error == Some(WeatherError(INVALID_CITY_MESSAGE, None))
                && data == old(data) && loading == old(loading) && lastUpdated == old(lastUpdated)
                && cache.entries == old(cache.entries) - {CacheKey(current.value)}
      ensures fetched && outcome.Success? ==>
                && data == Some(outcome.value) && lastUpdated == Some(doneAt)
                && error.None? && !loading
                && cache.entries == old(cache.entries)[CacheKey(current.value) := CacheEntry(outcome.value, doneAt)]
      ensures fetched && outcome.Failure? ==>
                && data == old(data) && lastUpdated == old(lastUpdated)
                && error == Some(ErrorFor(outcome.error)) && !loading
                && cache.entries == old(cache.entries) - {CacheKey(current.value)}
    {
      if current.None? {
        return false;
      }
      var cityData := current.value;
      var cacheKey := CacheKey(cityData);
      cache.entries := cache.entries - {cacheKey};
      fetched := FetchWeather(cityData, now, outcome, doneAt);
    }

    /** `clearCache`: empties the shared cache, for every instance. */
    method ClearCache()
      modifies cache
      ensures cache.entries == map[]
    {
      cache.entries := map[];
    }

    /** The `watchEffect`: when the bound city changes to a valid one, run
        `fetchWeather` on it (served from the cache when its entry is
        fresh); without a city, or with an invalid one, do nothing. */
    method WatchCity(current: Option<City>, now: int, outcome: Result<WeatherApiResponse, Thrown>, doneAt: int)
      returns (fetched: bool)
      modifies this, cache
      ensures current.None? || !ValidCity(current.value) ==>
                && !fetched
                && data == old(data) && loading == old(loading) && error == old(error)
                && lastUpdated == old(lastUpdated) && cache.entries == old(cache.entries)
      ensures fetched <==>
                current.Some? && ValidCity(current.value)
                && CacheLookup(old(cache.entries), CacheKey(current.value), now).None?
      // a valid city with a fresh entry is shown from the cache
      ensures current.Some? && ValidCity(current.value)
              && CacheLookup(old(cache.entries), CacheKey(current.value), now).Some? ==>
                var entry := old(cache.entries)[CacheKey(current.value)];
                && data == Some(entry.data) && lastUpdated == Some(entry.timestamp)
                && error.None? && loading == old(loading)
                && cache.entries == old(cache.entries)
      // otherwise it is fetched, as by `fetchWeather`
      ensures fetched && outcome.Success? ==>
                && data == Some(outcome.value) && lastUpdated == Some(doneAt)
                && error.None? && !loading
                && cache.entries == old(cache.entries)[CacheKey(current.value) := CacheEntry(outcome.value, doneAt)]
      ensures fetched && outcome.Failure? ==>
                && data == old(data) && lastUpdated == old(lastUpdated)
                && error == Some(ErrorFor(outcome.error)) && !loading
                && cache.entries == old(cache.entries)
    {
      fetched := false;
      if current.Some? && current.value.name != "" && current.value.country != "" {
        fetched := FetchWeather(current.value, now, outcome, doneAt);
      }
    }
  }

  /** Two instances for the same city sharing the cache: the second, started
      less than ten minutes after the first stored its answer, is served
      from the cache and shows the same data without fetching. */
  method FreshCacheIsShared(city: City, answer: WeatherApiResponse, t0: int, t1: int)
    returns (firstFetched: bool, secondFetched: bool, secondData: Option<WeatherApiResponse>)
    requires ValidCity(city)
    requires t0 <= t1 < t0 + CACHE_DURATION
    ensures firstFetched && !secondFetched && secondData == Some(answer)
  {
    var cache := new WeatherCache();
    var first := new Weather(cache);
    firstFetched := first.FetchWeather(city, t0, Success(answer), t0);
    var second := new Weather(cache);
    secondFetched := second.FetchWeather(city, t1, Success(answer), t1);
    secondData := second.data;
  }

  /** The same, but started ten minutes or more later: the stale entry is
      ignored and the city is fetched again. */
  method StaleCacheIsRefetched(city: City, answer: WeatherApiResponse, t0: int, t1: int)
    returns (firstFetched: bool, secondFetched: bool)
    requires ValidCity(city)
    requires t1 >= t0 + CACHE_DURATION
    ensures firstFetched && secondFetched
  {
    var cache := new WeatherCache();
    var first := new Weather(cache);
    firstFetched := first.FetchWeather(city, t0, Success(answer), t0);
    var second := new Weather(cache);
    secondFetched := second.FetchWeather(city, t1, Success(answer), t1);
  }

  /** A refresh right after a fetch fetches again in spite of the fresh
      entry. */
  method RefreshBypassesCache(city: City, answer: WeatherApiResponse, t0: int, t1: int)
    returns (firstFetched: bool, refreshed: bool, data: Option<WeatherApiResponse>)
    requires ValidCity(city)
    requires t0 <= t1
    ensures firstFetched && refreshed && data == Some(answer)
  {
    var cache := new WeatherCache();
    var weather := new Weather(cache);
    firstFetched := weather.FetchWeather(city, t0, Success(answer), t0);
    refreshed := weather.RefreshWeather(Some(city), t1, Success(answer), t1);
    data := weather.data;
  }
}
