# Weather forecast pipeline and cache, in Dafny

This project models the two parts of the weather application that hold its logic.

1. **The forecast pipeline of `src/services/weatherApi.ts`.** Raw 3-hour forecast samples are normalised into hourly records in the location's local time. The gaps between them are filled with interpolated hourly records. The records inside the next twelve hours are kept for the hourly view. All records are grouped by calendar day into daily summaries (extremes, rounded means, the largest precipitation chance, the most frequent condition), sorted by date. `fetchWeatherData` ties these steps together behind the geocoding and forecast requests.
2. **The `useWeather` composable of `src/composables/useWeather.ts`.** A module-wide cache maps `name,country` to an answer and the time it was stored; an entry stays usable for ten minutes. Each instance has state: the data shown, a loading flag, an error and the time of the data. `fetchWeather`, `refreshWeather`, `clearCache`, `setError` and `clearError` change that state.

Files:

| file | module | contents |
|---|---|---|
| `wrappers.dfy` | `Wrappers` | `Option`, `Result` |
| `js_math.dfy` | `JsMath` | `Math.round`, rounding to one decimal, JavaScript's truncating `%` on angles |
| `sequences.dfy` | `Sequences` | an order-preserving `Filter` and its properties |
| `forecast_types.dfy` | `ForecastTypes` | conditions, hourly records, daily summaries, time constants, calendar days |
| `normalization.dfy` | `Normalization` | `convertToHourlyForecast` and the `list.map` over the raw samples |
| `interpolation.dfy` | `Interpolation` | `linearInterpolate`, `interpolateWindDirection`, `interpolateForecast`, `createHourlyInterpolatedForecasts` |
| `horizon.dfy` | `Horizon` | `getNext12HoursForecast` |
| `daily.dfy` | `DailyAggregation` | `groupForecastsByDay`: bucketing, per-day summary, sort by date |
| `weather_api.dfy` | `WeatherApi` | `fetchWeatherData` with the two requests as function parameters |
| `use_weather.dfy` | `UseWeather` | the cache and the `useWeather` state as classes |
| `fixtures.dfy` | `Fixtures` | the Los Angeles forecast of `src/services/weatherApi.test.ts` pushed through the pipeline |

Representation choices:

- Times are whole milliseconds since the epoch (`int`). The local time of a record is its UTC time plus the offset. A calendar day is the floor of the time divided by 86 400 000. The date of a day is that day's first millisecond.
- Readings are exact `real`s. `Math.round(x)` is `floor(x + 0.5)`. JavaScript's `%` truncates toward zero, so `Rem360` is written that way. `NormalizeAngle` is `((x % 360) + 360) % 360` built from it, and it is proved equal to `x - 360·floor(x/360)`.
- The loops of the source are methods with loop invariants, each proved equal to a specification function:
  - `CreateHourlyInterpolatedForecasts` against `Interpolated`;
  - `CountWeather` and `Summarize` against `Categories`, `CountMap` and `SummaryOf`;
  - `GroupForecastsByDay` against `GroupByDay`;
  - `FetchWeatherData` against `FetchWeatherOutcome`.
  
  The properties are lemmas about those functions.
- The cache is a class `WeatherCache` holding a `map`. It is shared by every `Weather` instance, because one module-level `Map` serves all callers. The methods of `Weather` take the clock readings and the settled outcome of `fetchWeatherData` as parameters.

Behaviour that follows the code:

- **Most frequent condition on a tie.** The count reduce keeps the later entry unless the earlier count is strictly larger. Among categories tied for the top count, the one first seen latest in the day wins (`MostCommonIsLastMaximal`, `RepresentativeCondition`, `Fixtures.LosAngelesMode`).
- **Gap size.** A gap of exactly three hours gets two interpolated records, at +1 h and +2 h. A gap of at most one hour, or a negative gap, gets none (`GapCountSpec`).
- **Wind direction 360.** The interpolated wind direction is `Math.round` of a value in [0, 360), so a record can carry 360 (`WindDirection360Reachable`).
- **Future timestamps.** `isCacheValid` only checks `now - timestamp < 10 min`, so an entry stamped later than `now` counts as fresh.
- **Absent country.** The `City` type declares only `id` and `name`, but the code reads `country`. Here `country` is a string, and the empty string stands for an absent one. The geocoding query then is the name alone, and `fetchWeather` rejects the city.

## Model

| member | source | states |
|---|---|---|
| JsMath.Round | src/services/weatherApi.ts:93-111 | `Math.round`: the result is the integer within half a unit, rounding halves up |
| JsMath.RoundTenth | src/services/weatherApi.ts:99-100 | `Math.round(x * 10) / 10` has one decimal and lies within 0.05 of `x` |
| JsMath.Rem360 | src/services/weatherApi.ts:61-62 | JavaScript `% 360`: the remainder of truncated division, within (-360, 360), with the sign of the dividend |
| JsMath.NormalizeAngleIsFloorMod | src/services/weatherApi.ts:61-62 | `NormalizeAngle`, that is `((x % 360) + 360) % 360`, equals `x - 360·floor(x/360)` and lies in [0, 360) |
| JsMath.NormalizeAngleShift | src/services/weatherApi.ts:73 | normalising an angle in [0, 360) plus whole turns gives the angle back |
| Sequences.Filter | src/services/weatherApi.ts:227-230 | `Array.filter`: keeps exactly the elements satisfying the predicate |
| Sequences.FilterPositions | src/services/weatherApi.ts:227-230 | the filtered list is the subsequence at increasing positions, exactly those whose elements are kept |
| Interpolation.LinearInterpolate | src/services/weatherApi.ts:52-54 | factor 0 gives the first value, factor 1 the second |
| Interpolation.LinearInterpolateBetween | src/services/weatherApi.ts:52-54 | for a factor in [0, 1] the result, and its rounding, lie between the two endpoints and their roundings |
| Interpolation.InterpolateWindDirection | src/services/weatherApi.ts:59-74 | the interpolated direction lies in [0, 360) |
| Interpolation.ShortestArc | src/services/weatherApi.ts:64-70 | the wrapped difference is within [-180, 180], lands on the second direction, and no whole-turn alternative is shorter |
| Interpolation.WindDirectionEndpoints | src/services/weatherApi.ts:59-74 | factor 0 and factor 1 give the two normalised directions |
| Interpolation.WindDirectionAcrossNorth | src/services/weatherApi.ts:59-74 | halfway from 350° to 10° is 0°, not 180° |
| Interpolation.InterpolateForecast | src/services/weatherApi.ts:79-115 | the record is at the target time and takes the first sample's condition when the factor is below 0.5, the second's otherwise |
| Interpolation.InterpolatedRecord | src/services/weatherApi.ts:89-113 | strictly between the samples the factor is in (0, 1); each rounded field lies between the rounded endpoints; wind speed has one decimal and stays near the endpoint range; wind direction is in [0, 360]; the condition follows the nearer sample |
| Interpolation.WindDirection360Reachable | src/services/weatherApi.ts:101-103 | a concrete pair of samples whose interpolated record has wind direction 360 |
| Interpolation.GapCount | src/services/weatherApi.ts:134-139 | a positive number of records to insert only when the second sample is later; its value is stated in `GapCountSpec` |
| Interpolation.GapCountSpec | src/services/weatherApi.ts:134-147 | `GapCount`: a gap of d ms with d > 1 h gets floor(d/1 h) − 1 records, otherwise none; the last is still before the next sample; 3 h gives 2 |
| Interpolation.Gap | src/services/weatherApi.ts:142-146 | the inner loop yields exactly the counted number of records |
| Interpolation.CreateHourlyInterpolatedForecasts | src/services/weatherApi.ts:120-154 | the nested loops build exactly `Interpolated` of the input |
| Interpolation.SamplesKept | src/services/weatherApi.ts:120-154 | fewer than two samples come back unchanged; every sample appears unchanged at its position in the output; the first sample is first and the last is last; what lies between two consecutive samples is stated in `GapInOutput`, and time order in `InterpolatedIncreasing` |
| Interpolation.GapRecord | src/services/weatherApi.ts:142-146 | the h-th inserted record is the interpolation at the first sample's time plus h hours, strictly between the two samples |
| Interpolation.GapInOutput | src/services/weatherApi.ts:127-147 | between consecutive samples in the output sit exactly the counted gap records, in order |
| Interpolation.GapFilled | src/services/weatherApi.ts:135-146 | the output record h places after sample i is the interpolation at +h hours, strictly before the next sample |
| Interpolation.NoGapWithinAnHour | src/services/weatherApi.ts:139 | samples at most an hour apart stay adjacent in the output |
| Interpolation.InterpolatedIncreasing | src/services/weatherApi.ts:120-154 | strictly increasing input times give strictly increasing output times |
| Normalization.ConvertToHourlyForecast | src/services/weatherApi.ts:195-215 | a record exists exactly when the raw condition list is non-empty |
| Normalization.NormalizedRecord | src/services/weatherApi.ts:195-215 | local time is (dt + offset)·1000; temperatures are the nearest integers to the raw ones; precipitation is `pop`·100 rounded to the nearest whole percentage, within [0, 100] for `pop` in [0, 1]; the condition is the first raw one; other fields are copied |
| Normalization.PopPercentage | src/services/weatherApi.test.ts:255-276 | `pop` 0.2 gives 20 |
| Normalization.NormalizeAll | src/services/weatherApi.ts:302-304 | all samples convert exactly when each has a condition; then one record per sample, in order |
| Horizon.GetNext12HoursForecast | src/services/weatherApi.ts:217-231 | a record is kept exactly when it is in the input and lies between local now and local now + 12 h, both bounds included |
| Horizon.Next12HoursSelection | src/services/weatherApi.ts:227-230 | the result is the order-preserving subsequence of in-window records, and time order is kept |
| Horizon.WholeInputInWindow | src/services/weatherApi.ts:227-230 | when every record is in the window the input comes back whole |
| DailyAggregation.DaysInOrder | src/services/weatherApi.ts:234-244 | the keys of the grouping: every day that has a record, each once |
| DailyAggregation.Members | src/services/weatherApi.ts:234-244 | a day's bucket holds exactly the input records on that day |
| DailyAggregation.MembersInInputOrder | src/services/weatherApi.ts:234-244 | a day's bucket is the order-preserving subsequence of the input records on that day |
| DailyAggregation.BucketsPartition | src/services/weatherApi.ts:234-244 | over distinct days that cover every record, the bucket sizes sum to the input length |
| DailyAggregation.MinOf | src/services/weatherApi.ts:273 | `Math.min`: an element no larger than any other |
| DailyAggregation.MaxOf | src/services/weatherApi.ts:274 | `Math.max`: an element no smaller than any other |
| DailyAggregation.MeanBetween | src/services/weatherApi.ts:275-278 | the mean of values within [lo, hi] lies within it, and so does its rounding between the rounded bounds |
| DailyAggregation.Categories | src/services/weatherApi.ts:254-261 | the keys of the count object: every listed category occurs in the day and every record's category is listed |
| DailyAggregation.CategoriesDistinct | src/services/weatherApi.ts:254-261 | each category is listed once, as object keys are |
| DailyAggregation.Count | src/services/weatherApi.ts:254-261 | the count is positive exactly for a category that occurs, and at most the day's size |
| DailyAggregation.CountWeather | src/services/weatherApi.ts:254-261 | the reduce builds exactly the categories in first-seen order and their counts |
| DailyAggregation.MostCommon | src/services/weatherApi.ts:263-265 | the winner is one of the day's categories |
| DailyAggregation.MostCommonIsLastMaximal | src/services/weatherApi.ts:263-265 | the winner has the top count, and every category after it has a strictly smaller count |
| DailyAggregation.FirstIndexOf | src/services/weatherApi.ts:267-269 | `find`: the first record with the category, if any |
| DailyAggregation.CategoriesInFirstSeenOrder | src/services/weatherApi.ts:254-261 | categories are listed in the order of their first record |
| DailyAggregation.RepresentativeCondition | src/services/weatherApi.ts:263-269 | `RepresentativeWeather`: the day's condition is that of the first record of a most frequent category; any category first seen later has a strictly smaller count |
| DailyAggregation.SummaryOf | src/services/weatherApi.ts:271-282 | a day's summary is dated at the day's first millisecond and holds exactly the records it was given; its statistics are stated in `SummaryExtremes`, `SummaryMeans` and `RepresentativeCondition` |
| DailyAggregation.SummaryExtremes | src/services/weatherApi.ts:271-282 | the date is the day's start; the records are the bucket; min ≤ max, both taken from the records and bounding them; precipitation is the largest |
| DailyAggregation.SummaryMeans | src/services/weatherApi.ts:275-278 | humidity and pressure are whole rounded means within the rounded bounds of the records; wind speed has one decimal and is within 0.05 of the records' range |
| DailyAggregation.Summarize | src/services/weatherApi.ts:247-283 | the per-day map builds exactly `SummaryOf` the day's records |
| DailyAggregation.SortByDate | src/services/weatherApi.ts:284 | the sort keeps the same summaries and their number |
| DailyAggregation.SortByDateIncreasing | src/services/weatherApi.ts:284 | with distinct dates the sorted list has strictly increasing dates |
| DailyAggregation.SortByDateMemberCount | src/services/weatherApi.ts:284 | sorting keeps the total number of records across summaries |
| DailyAggregation.GroupByDayProperties | src/services/weatherApi.ts:233-285 | dates strictly increase; each summary is non-empty and summarises exactly its day's records; every record's day has a summary; the buckets hold as many records as the input |
| DailyAggregation.GroupSingleDay | src/services/weatherApi.ts:233-285 | records all on one day give one summary of them all |
| DailyAggregation.BucketByDay | src/services/weatherApi.ts:234-244 | the bucketing reduce gains keys in first-seen day order, each once, and the bucket of each day is exactly `Members` of that day |
| DailyAggregation.SummarizeDays | src/services/weatherApi.ts:247-283 | the map over the buckets builds exactly the summaries of the days, in key order |
| DailyAggregation.GroupForecastsByDay | src/services/weatherApi.ts:233-285 | the two reduces, the map and the sort build exactly `GroupByDay` of the input |
| WeatherApi.GeocodeQuery | src/services/weatherApi.ts:160 | `name,country`, or the name alone when there is no country |
| WeatherApi.TransformForecast | src/services/weatherApi.ts:299-324 | failure exactly when a sample has no condition, with the wrapped "Failed to fetch weather data" error and no code |
| WeatherApi.FetchWeatherData | src/services/weatherApi.ts:287-325 | the steps in order give exactly `FetchWeatherOutcome` |
| WeatherApi.FetchWeatherOutcomeCases | src/services/weatherApi.ts:287-297 | request errors pass through; no candidate gives the "No location found for: name, country" error of `NoLocationMessage`; otherwise the first candidate's forecast is transformed |
| WeatherApi.TransformForecastSuccess | src/services/weatherApi.ts:299-316 | with every condition present: success, one record per sample; the hourly part is the in-window interpolated records, time-ordered when the samples were; the daily part is date-ordered and its buckets partition the interpolated records by day |
| UseWeather.CacheKeyInjective | src/composables/useWeather.ts:11 | `CacheKey` is `name,country`; without commas in names, two cities share a key exactly when they are equal |
| UseWeather.CacheKeyCollision | src/composables/useWeather.ts:11 | two different cities with commas in their names share a key |
| UseWeather.CacheLookup | src/composables/useWeather.ts:55-56 | a served entry is the stored entry for the key |
| UseWeather.StoredEntryServedForTenMinutes | src/composables/useWeather.ts:26-28 | `IsCacheValid`: an entry stored at t is served exactly before t + 600 000 ms; storing it leaves other keys' lookups unchanged |
| UseWeather.ErrorFor | src/composables/useWeather.ts:34-45 | an API error keeps message and code; another error keeps its message; anything else becomes "An unknown error occurred"; only API errors have a code |
| UseWeather.WeatherCache.constructor | src/composables/useWeather.ts:8 | the cache starts empty |
| UseWeather.Weather.constructor | src/composables/useWeather.ts:14-19 | no data, not loading, no error, no time |
| UseWeather.Weather.ClearError | src/composables/useWeather.ts:30-32 | the error is cleared and nothing else changes |
| UseWeather.Weather.SetError | src/composables/useWeather.ts:34-45 | the error becomes the envelope of what was thrown and nothing else changes |
| UseWeather.Weather.FetchWeather | src/composables/useWeather.ts:47-82 | fetches exactly for a valid city without a fresh entry; an invalid city only sets the validation error; a fresh entry is shown with its own time and the error cleared; a success is shown and stored under the key, with no other key touched; a failure keeps data and cache and sets the error; loading ends false after a fetch |
| UseWeather.Weather.RefreshWeather | src/composables/useWeather.ts:84-93 | without a city nothing changes; otherwise only that city's key is dropped and a valid city is always fetched |
| UseWeather.Weather.ClearCache | src/composables/useWeather.ts:95-97 | the shared cache is empty |
| UseWeather.Weather.WatchCity | src/composables/useWeather.ts:99-104 | without a city or with an invalid one nothing changes; a valid city with a fresh entry is shown from the cache with the error cleared; otherwise it is fetched, and a success or a failure ends as in `FetchWeather` |
| UseWeather.FreshCacheIsShared | src/composables/useWeather.test.ts:183-204 | a second instance within ten minutes is served the first one's answer without fetching |
| UseWeather.StaleCacheIsRefetched | src/composables/useWeather.test.ts:206-230 | a second instance ten minutes or more later fetches again |
| UseWeather.RefreshBypassesCache | src/composables/useWeather.test.ts:232-250 | a refresh right after a fetch fetches again and shows the answer |
| Fixtures.LosAngelesNormalized | src/services/weatherApi.test.ts:28-92 | the two test samples normalise to temperatures 26 and 24 and precipitation 20 and 30, at 16:00 and 19:00 UTC, that is 08:00 and 11:00 local time |
| Fixtures.LosAngelesInterpolated | src/services/weatherApi.test.ts:28-92 | the 3-hour gap gets two records with temperatures 25 and 25, precipitation 23 and 27, conditions Clear and Clouds |
| Fixtures.LosAngelesPipeline | src/services/weatherApi.test.ts:255-276 | with the request time chosen at the first sample (the tests do not fix the clock), so that the window is not empty, all four records are in the window, the first has 26° and 20 %, and one day results with range 24–26, precipitation 30 and condition Clouds |
| Fixtures.LosAngelesMode | src/services/weatherApi.ts:263-269 | two Clear and two Clouds records: the tie goes to Clouds |

## Left out

- HTTP and JSON: `fetch`, `handleApiResponse`, URL building with `encodeURIComponent` and the API key, `src/services/weatherApi.ts:11-47,156-193`. The geocoding and forecast requests are function parameters returning an answer or an `ApiError`. The error wrapping inside `geocodeCity` and `fetchWeatherDataByCoords` is not part of this model.
- The start-up check of the API key in the environment: configuration.
- Vue reactivity (`reactive`, `computed`, `readonly`, `toValue`): the state is plain class fields. `watchEffect` is the method `WatchCity`, which the caller invokes.
- `async` interleaving: every call runs to completion. `loading` is `true` only while a request is in flight, which the model never observes between calls. Concurrent calls are not modelled.
- Clocks: `Date.now()` and `new Date()` are parameters. `UseWeather.Weather.FetchWeather` uses one completion time `doneAt` for both `lastUpdated` and the cache timestamp; the source reads the clock twice, microseconds apart.
- IEEE floating point: readings are exact reals, so the binary rounding of `* 10 / 10` and `pop * 100` is not reproduced.
- JS `Date`, `toDateString` and `new Date(dateKey)` depend on the host time zone. A day is UTC-day arithmetic on the already shifted local time, and a summary's date is that day's first millisecond.
- `Object.entries` lists integer-like keys first. Category names and date strings are never integer-like, so insertion order is modelled.
- `console.error` logging in `fetchWeather`.
- A missing condition list: the message of the host's `TypeError` is modelled as one fixed string.
- `!cityData` in `fetchWeather`: the model's `City` is always present; a missing city reaches `RefreshWeather` and `WatchCity` as `None`.
- An absent country prints as `undefined` in the "No location found" message. Here it is the empty string.
- UseWeather.CacheKey: an absent country gives the key `name,` here, where the source builds `name,undefined`; `fetchWeather` rejects such a city before any lookup, so only the key that `refreshWeather` deletes for it differs (nothing is ever stored under either key).
- Interpolation.InterpolateForecast: its own contract states only the time and the condition; the bounds on the numeric fields are in `InterpolatedRecord`.
- DailyAggregation.SortByDate: its own contract states length and membership, not that it is stable; the dates it sorts are distinct, where stability does not matter.
- `src/types/weather.ts` and `src/types/city.ts`: record shapes are taken from the object literals that `weatherApi.ts` builds.
