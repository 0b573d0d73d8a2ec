/** The sample normaliser of `src/services/weatherApi.ts`
    (`convertToHourlyForecast`) and its use on the provider's whole list. */
module Normalization {
  import opened Wrappers
  import opened JsMath
  import opened ForecastTypes

  /** One entry of a raw sample's `weather` list. */
  datatype RawCondition = RawCondition(id: int, main: string, description: string, icon: string)

  /** A raw 3-hour sample (`ForecastItem`): epoch seconds, readings, the
      precipitation fraction `pop` and the condition list. */
  datatype RawItem = RawItem(
    dt: int,
    temp: real,
    feelsLike: real,
    humidity: real,
    pressure: real,
    windSpeed: real,
    windDeg: real,
    visibility: real,
    pop: real,
    weather: seq<RawCondition>)

  /** `convertToHourlyForecast`. Reading `item.weather[0].main` of an empty
      condition list throws; that is `None` here. */
  function ConvertToHourlyForecast(item: RawItem, timezoneOffset: int): (r: Option<Hourly>)
    ensures r.Some? <==> |item.weather| > 0
  {
    if |item.weather| == 0 then None
    else
      var utcTime := item.dt * 1000;
      var localTime := utcTime + timezoneOffset * 1000;
      var c := item.weather[0];
      Some(Hourly(
        localTime,
        Round(item.temp) as real,
        Round(item.feelsLike) as real,
        item.humidity,
        item.pressure,
        item.windSpeed,
        item.windDeg,
        item.visibility,
        Round(item.pop * 100.0) as real,
        Condition(c.main, c.description, c.icon)))
  }

  /** What a normalised record holds: the time is the epoch time shifted
      by the offset, in milliseconds; temperatures are the nearest integers
      to the raw ones; a precipitation fraction in [0, 1] becomes a whole
      percentage in [0, 100]; the condition is the first listed one; the
      other readings are copied. */
  lemma NormalizedRecord(item: RawItem, timezoneOffset: int)
    requires |item.weather| > 0
    ensures var h := ConvertToHourlyForecast(item, timezoneOffset).value;
            && h.time == (item.dt + timezoneOffset) * 1000
            && h.temperature == h.temperature.Floor as real
            && item.temp - 0.5 < h.temperature <= item.temp + 0.5
            && h.feelsLike == h.feelsLike.Floor as real
            && item.feelsLike - 0.5 < h.feelsLike <= item.feelsLike + 0.5
            && h.precipitationProbability == h.precipitationProbability.Floor as real
            && item.pop * 100.0 - 0.5 < h.precipitationProbability <= item.pop * 100.0 + 0.5
            && (0.0 <= item.pop <= 1.0 ==> 0.0 <= h.precipitationProbability <= 100.0)
            && h.weather.main == item.weather[0].main
            && h.weather.description == item.weather[0].description
            && h.weather.icon == item.weather[0].icon
            && h.humidity == item.humidity && h.pressure == item.pressure
            && h.windSpeed == item.windSpeed && h.windDirection == item.windDeg
            && h.visibility == item.visibility
  {
    if 0.0 <= item.pop <= 1.0 {
      RoundMonotone(0.0, item.pop * 100.0);
      RoundMonotone(item.pop * 100.0, 100.0);
    }
  }

  /** A precipitation fraction of 0.2 becomes 20 percent. */
  lemma PopPercentage(item: RawItem, timezoneOffset: int)
    requires |item.weather| > 0 && item.pop == 0.2
    ensures ConvertToHourlyForecast(item, timezoneOffset).value.precipitationProbability == 20.0
  {
    RoundOfInteger(20);
  }

  /** `weatherData.list.map(convertToHourlyForecast)`: fails as soon as one
      sample has no condition, otherwise normalises every sample in order. */
  function NormalizeAll(items: seq<RawItem>, timezoneOffset: int): (r: Option<seq<Hourly>>)
    ensures r.Some? <==> forall i :: 0 <= i < |items| ==> |items[i].weather| > 0
    ensures r.Some? ==> |r.value| == |items|
    ensures r.Some? ==> forall i :: 0 <= i < |items| ==>
              ConvertToHourlyForecast(items[i], timezoneOffset) == Some(r.value[i])
  {
    if items == [] then Some([])
    else
      match ConvertToHourlyForecast(items[0], timezoneOffset)
      case None => None
      case Some(h) =>
        match NormalizeAll(items[1..], timezoneOffset)
        case None => None
        case Some(rest) =>
          assert forall i :: 1 <= i < |items| ==> items[i] == items[1..][i - 1];
          Some([h] + rest)
  }
}
