/** The records the forecast pipeline produces. Times are milliseconds
    since the epoch, already shifted into the location's local time;
    numeric readings are exact reals. */
module ForecastTypes {

  const HOUR_MS: int := 60 * 60 * 1000
  const DAY_MS: int := 24 * HOUR_MS

  /** One entry of the provider's condition list: `{main, description, icon}`. */
  datatype Condition = Condition(main: string, description: string, icon: string)

  /** An hourly forecast record (the object literal built by
      `convertToHourlyForecast` and `interpolateForecast`). */
  datatype Hourly = Hourly(
    time: int,
    temperature: real,
    feelsLike: real,
    humidity: real,
    pressure: real,
    windSpeed: real,
    windDirection: real,
    visibility: real,
    precipitationProbability: real,
    weather: Condition)

  /** A daily summary (the object literal built in `groupForecastsByDay`). */
  datatype DailyForecast = DailyForecast(
    date: int,
    temperatureMin: real,
    temperatureMax: real,
    humidity: real,
    pressure: real,
    windSpeed: real,
    precipitationProbability: real,
    weather: Condition,
    forecasts: seq<Hourly>)

  /** Record times strictly increase along the sequence. */
  ghost predicate TimesIncreasing(s: seq<Hourly>)
  {
    forall i, j :: 0 <= i < j < |s| ==> s[i].time < s[j].time
  }

  /** The calendar day of a local time: `toDateString` stands for the day
      number counted from the epoch. */
  function DayOf(t: int): int
  {
    t / DAY_MS
  }

  /** The time `new Date(dateKey)` yields: the start of the day. */
  function DayStart(d: int): (t: int)
    ensures DayOf(t) == d
  {
    d * DAY_MS
  }
}
