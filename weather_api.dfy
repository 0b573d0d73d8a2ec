/** `fetchWeatherData` of `src/services/weatherApi.ts`: geocode the city,
    take the first candidate, fetch its forecast, then normalise,
    interpolate, cut the 12-hour window and group by day. The two HTTP
    requests are function parameters; the clock reading is a parameter. */
module WeatherApi {
  import opened Wrappers
  import opened ForecastTypes
  import opened Normalization
  import opened Interpolation
  import opened Horizon
  import opened DailyAggregation

  /** The city the caller asks for. The empty string stands for a country
      that is absent. */
  datatype City = City(name: string, country: string)

  /** One entry of the geocoding answer. */
  datatype GeoCandidate = GeoCandidate(name: string, lat: real, lon: real, country: string)

  /** The forecast answer: the raw 3-hour samples and the location's offset
      from UTC in seconds (`city.timezone`). */
  datatype ForecastResponse = ForecastResponse(list: seq<RawItem>, timezone: int)

  /** `WeatherApiError`: a message and an optional HTTP status. */
  datatype ApiError = ApiError(message: string, code: Option<int>)

  datatype WeatherApiResponse = WeatherApiResponse(hourlyForecast: seq<Hourly>, dailyForecast: seq<DailyForecast>)

  /** The prefix `fetchWeatherData` puts on an error that is not already a
      `WeatherApiError`. */
  const FETCH_FAILED_PREFIX: string := "Failed to fetch weather data: "

  /** The host's message for reading `main` of the missing first entry of
      an empty condition list. */
  const MISSING_CONDITION_MESSAGE: string := "Cannot read properties of undefined (reading 'main')"

  /** The geocoding query: `name,country`, or the name alone when there is
      no country. */
  function GeocodeQuery(cityName: string, countryCode: string): (q: string)
    ensures countryCode == "" ==> q == cityName
    ensures countryCode != "" ==>
              |q| == |cityName| + 1 + |countryCode|
              && q[..|cityName|] == cityName && q[|cityName|] == ','
              && q[|cityName| + 1..] == countryCode
  {
    if countryCode == "" then cityName else cityName + "," + countryCode
  }

  function NoLocationMessage(city: City): string
  {
    "No location found for: " + city.name + ", " + city.country
  }

  /** Everything `fetchWeatherData` does once the forecast answer is in.
      A sample without a condition makes the normaliser throw, and the
      catch turns that into a `WeatherApiError` without a code. */
  function TransformForecast(response: ForecastResponse, utcNow: int): (r: Result<WeatherApiResponse, ApiError>)
    ensures r.Failure? <==> exists i :: 0 <= i < |response.list| && |response.list[i].weather| == 0
    ensures r.Failure? ==> r.error == ApiError(FETCH_FAILED_PREFIX + MISSING_CONDITION_MESSAGE, None)
  {
    match NormalizeAll(response.list, response.timezone)
    case None => Failure(ApiError(FETCH_FAILED_PREFIX + MISSING_CONDITION_MESSAGE, None))
    case Some(raw) =>
      var all := Interpolated(raw);
      Success(WeatherApiResponse(GetNext12HoursForecast(all, response.timezone, utcNow), GroupByDay(all)))
  }

  /** `fetchWeatherData` as a value. Errors of the two requests are
      `WeatherApiError`s already and pass through unchanged. */
  function FetchWeatherOutcome(
    city: City,
    geocode: string -> Result<seq<GeoCandidate>, ApiError>,
    forecastAt: (real, real) -> Result<ForecastResponse, ApiError>,
    utcNow: int): Result<WeatherApiResponse, ApiError>
  {
    match geocode(GeocodeQuery(city.name, city.country))
    case Failure(e) => Failure(e)
    case Success(candidates) =>
      if |candidates| == 0 then Failure(ApiError(NoLocationMessage(city), None))
      else
        match forecastAt(candidates[0].lat, candidates[0].lon)
        case Failure(e) => Failure(e)
        case Success(response) => TransformForecast(response, utcNow)
  }

  /** `fetchWeatherData`: the steps of the source in order, calling the
      interpolation and grouping methods. */
  method FetchWeatherData(
    city: City,
    geocode: string -> Result<seq<GeoCandidate>, ApiError>,
    forecastAt: (real, real) -> Result<ForecastResponse, ApiError>,
    utcNow: int) returns (result: Result<WeatherApiResponse, ApiError>)
    ensures result == FetchWeatherOutcome(city, geocode, forecastAt, utcNow)
  {
    var geocodingResult := geocode(GeocodeQuery(city.name, city.country));
    if geocodingResult.Failure? {
      return Failure(geocodingResult.error);
    }
    if |geocodingResult.value| == 0 {
      return Failure(ApiError(NoLocationMessage(city), None));
    }
    var location := geocodingResult.value[0];
    var weatherData := forecastAt(location.lat, location.lon);
    if weatherData.Failure? {
      return Failure(weatherData.error);
    }
    var timezoneOffset := weatherData.value.timezone;
    var rawHourlyForecasts := NormalizeAll(weatherData.value.list, timezoneOffset);
    if rawHourlyForecasts.None? {
      return Failure(ApiError(FETCH_FAILED_PREFIX + MISSING_CONDITION_MESSAGE, None));
    }
    var allHourlyForecasts := CreateHourlyInterpolatedForecasts(rawHourlyForecasts.value);
    var next12HoursForecast := GetNext12HoursForecast(allHourlyForecasts, timezoneOffset, utcNow);
    var dailyForecast := GroupForecastsByDay(allHourlyForecasts);
    return Success(WeatherApiResponse(next12HoursForecast, dailyForecast));
  }

  /** Which way the call goes: a geocoding failure or an empty candidate
      list stops it before the forecast request; otherwise it follows the
      forecast request for the first candidate's coordinates. */
  lemma FetchWeatherOutcomeCases(
    city: City,
    geocode: string -> Result<seq<GeoCandidate>, ApiError>,
    forecastAt: (real, real) -> Result<ForecastResponse, ApiError>,
    utcNow: int)
    ensures var g := geocode(GeocodeQuery(city.name, city.country));
            var r := FetchWeatherOutcome(city, geocode, forecastAt, utcNow);
            && (g.Failure? ==> r == Failure(g.error))
            && (g.Success? && g.value == [] ==>
                  r.Failure? && r.error.code.None?
                  && r.error.message == "No location found for: " + city.name + ", " + city.country)
            && (g.Success? && g.value != [] ==>
                  var f := forecastAt(g.value[0].lat, g.value[0].lon);
                  && (f.Failure? ==> r == Failure(f.error))
                  && (f.Success? ==> r == TransformForecast(f.value, utcNow)))
  {
  }

  /** A successful answer: every raw sample had a condition; the hourly part
      is exactly the interpolated records inside the 12-hour window from the
      local now, in time order when the samples were; the daily part is one
      summary per calendar day, strictly by date, whose buckets together
      hold every interpolated record once. */
  lemma TransformForecastSuccess(response: ForecastResponse, utcNow: int)
    requires forall i :: 0 <= i < |response.list| ==> |response.list[i].weather| > 0
    ensures NormalizeAll(response.list, response.timezone).Some?
    ensures |NormalizeAll(response.list, response.timezone).value| == |response.list|
    ensures TransformForecast(response, utcNow).Success?
    ensures forall h :: h in TransformForecast(response, utcNow).value.hourlyForecast <==>
              && h in Interpolated(NormalizeAll(response.list, response.timezone).value)
              && LocalNow(utcNow, response.timezone) <= h.time
              && h.time <= LocalNow(utcNow, response.timezone) + TWELVE_HOURS_MS
    ensures TimesIncreasing(NormalizeAll(response.list, response.timezone).value) ==>
              TimesIncreasing(TransformForecast(response, utcNow).value.hourlyForecast)
    ensures DatesIncreasing(TransformForecast(response, utcNow).value.dailyForecast)
    ensures MemberCount(TransformForecast(response, utcNow).value.dailyForecast)
              == |Interpolated(NormalizeAll(response.list, response.timezone).value)|
    ensures forall s :: s in TransformForecast(response, utcNow).value.dailyForecast ==>
              && s.forecasts != []
              && s.forecasts == Members(Interpolated(NormalizeAll(response.list, response.timezone).value), DayOf(s.date))
  {
    var raw := NormalizeAll(response.list, response.timezone).value;
    var all := Interpolated(raw);
    TransformShape(response, utcNow);
    DailyPart(all);
    if TimesIncreasing(raw) {
      HourlyOrdered(raw, response.timezone, utcNow);
    }
  }

  /** With every condition present, the answer is the window of the
      interpolated records and their grouping by day. */
  lemma TransformShape(response: ForecastResponse, utcNow: int)
    requires forall i :: 0 <= i < |response.list| ==> |response.list[i].weather| > 0
    ensures NormalizeAll(response.list, response.timezone).Some?
    ensures var all := Interpolated(NormalizeAll(response.list, response.timezone).value);
            TransformForecast(response, utcNow)
              == Success(WeatherApiResponse(GetNext12HoursForecast(all, response.timezone, utcNow), GroupByDay(all)))
  {
  }

  /** The daily part: strictly by date, every summary non-empty and
      holding exactly its day's records, all records accounted for. */
  lemma DailyPart(all: seq<Hourly>)
    ensures DatesIncreasing(GroupByDay(all))
    ensures MemberCount(GroupByDay(all)) == |all|
    ensures forall s :: s in GroupByDay(all) ==>
              s.forecasts != [] && s.forecasts == Members(all, DayOf(s.date))
  {
    GroupByDayProperties(all);
  }

  /** Time-ordered samples give a time-ordered hourly part. */
  lemma HourlyOrdered(raw: seq<Hourly>, timezoneOffset: int, utcNow: int)
    requires TimesIncreasing(raw)
    ensures TimesIncreasing(GetNext12HoursForecast(Interpolated(raw), timezoneOffset, utcNow))
  {
    InterpolatedIncreasing(raw);
    var idx := Next12HoursSelection(Interpolated(raw), timezoneOffset, utcNow);
  }
}
