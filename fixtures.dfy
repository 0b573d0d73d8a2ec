/** The Los Angeles forecast of the repository's API tests
    (`src/services/weatherApi.test.ts`), pushed through the whole pipeline:
    two samples three hours apart, at epoch seconds 1705334400 and 1705345200
    (16:00 and 19:00 UTC on 2024-01-15; the test file's own comments say
    12:00 and 15:00), with an offset of -8 hours. */
module Fixtures {
  import opened Wrappers
  import opened JsMath
  import opened ForecastTypes
  import opened Normalization
  import opened Interpolation
  import opened Horizon
  import opened DailyAggregation
  import opened WeatherApi

  const CLEAR: Condition := Condition("Clear", "clear sky", "01d")
  const CLOUDS: Condition := Condition("Clouds", "few clouds", "02d")

  const LOS_ANGELES: ForecastResponse := ForecastResponse(
    [ RawItem(1705334400, 25.5, 27.2, 60.0, 1013.0, 5.2, 180.0, 10000.0, 0.2,
              [RawCondition(800, "Clear", "clear sky", "01d")]),
      RawItem(1705345200, 23.8, 25.1, 65.0, 1012.0, 7.1, 190.0, 9500.0, 0.3,
              [RawCondition(801, "Clouds", "few clouds", "02d")]) ],
    -28800)

  /** The two samples after normalisation, in local time: 08:00 and 11:00. */
  const EIGHT_AM: Hourly := Hourly(1705305600000, 26.0, 27.0, 60.0, 1013.0, 5.2, 180.0, 10000.0, 20.0, CLEAR)
  const ELEVEN_AM: Hourly := Hourly(1705316400000, 24.0, 25.0, 65.0, 1012.0, 7.1, 190.0, 9500.0, 30.0, CLOUDS)

  /** The request time this model chooses for the pipeline (the tests do not
      fix the clock): the first sample's UTC time, so that the 12-hour window
      starts at the first sample and is not empty. */
  const TEST_NOW: int := 1705334400000

  /** Normalisation rounds the temperatures and turns `pop` into a
      percentage: 0.2 becomes 20. */
  lemma LosAngelesNormalized()
    ensures NormalizeAll(LOS_ANGELES.list, LOS_ANGELES.timezone) == Some([EIGHT_AM, ELEVEN_AM])
  {
    var items := LOS_ANGELES.list;
    RoundOfInteger(20);
    RoundOfInteger(30);
    assert Round(25.5) == 26 && Round(27.2) == 27 && Round(23.8) == 24 && Round(25.1) == 25;
    assert ConvertToHourlyForecast(items[0], -28800) == Some(EIGHT_AM);
    assert ConvertToHourlyForecast(items[1], -28800) == Some(ELEVEN_AM);
    var tz := LOS_ANGELES.timezone;
    var rest := items[1..];
    assert rest == [items[1]];
    assert rest[1..] == [];
    assert NormalizeAll(rest[1..], tz) == Some([]);
    assert ConvertToHourlyForecast(rest[0], tz) == Some(ELEVEN_AM);
    assert [ELEVEN_AM] + [] == [ELEVEN_AM];
    assert NormalizeAll(rest, tz) == Some([ELEVEN_AM]);
    assert [EIGHT_AM] + [ELEVEN_AM] == [EIGHT_AM, ELEVEN_AM];
    assert ConvertToHourlyForecast(items[0], tz) == Some(EIGHT_AM);
  }

  /** Interpolation fills the 3-hour gap with two records, at 09:00 and
      10:00 local time. */
  lemma LosAngelesInterpolated()
    ensures var all := Interpolated([EIGHT_AM, ELEVEN_AM]);
            && |all| == 4
            && all[0] == EIGHT_AM && all[3] == ELEVEN_AM
            && all[1].time == EIGHT_AM.time + HOUR_MS && all[2].time == EIGHT_AM.time + 2 * HOUR_MS
            && all[1].temperature == 25.0 && all[2].temperature == 25.0
            && all[1].precipitationProbability == 23.0 && all[2].precipitationProbability == 27.0
            && all[1].weather == CLEAR && all[2].weather == CLOUDS
  {
    var g := Gap(EIGHT_AM, ELEVEN_AM);
    LosAngelesLayout();
    LosAngelesFirstFill();
    LosAngelesSecondFill();
    assert g[0] == InterpolateForecast(EIGHT_AM, ELEVEN_AM, EIGHT_AM.time + HOUR_MS);
    assert g[1] == InterpolateForecast(EIGHT_AM, ELEVEN_AM, EIGHT_AM.time + 2 * HOUR_MS);
  }

  /** The two samples are three hours apart: the output is the first, two
      filler records, and the second. */
  lemma LosAngelesLayout()
    ensures |Gap(EIGHT_AM, ELEVEN_AM)| == 2
    ensures Interpolated([EIGHT_AM, ELEVEN_AM]) == [EIGHT_AM] + Gap(EIGHT_AM, ELEVEN_AM) + [ELEVEN_AM]
  {
    var fs := [EIGHT_AM, ELEVEN_AM];
    GapCountSpec(EIGHT_AM, ELEVEN_AM);
    assert GapCount(EIGHT_AM, ELEVEN_AM) == 2;
    assert Segments(fs, 0) == [];
    assert Segments(fs, 1) == [EIGHT_AM] + Gap(EIGHT_AM, ELEVEN_AM);
  }

  /** One hour in, a third of the way: 25 degrees, 23 percent, still clear. */
  lemma LosAngelesFirstFill()
    ensures var f := InterpolateForecast(EIGHT_AM, ELEVEN_AM, EIGHT_AM.time + HOUR_MS);
            && f.time == EIGHT_AM.time + HOUR_MS
            && f.temperature == 25.0 && f.precipitationProbability == 23.0 && f.weather == CLEAR
  {
    assert Factor(EIGHT_AM, ELEVEN_AM, EIGHT_AM.time + HOUR_MS) == 1.0 / 3.0;
    assert LinearInterpolate(26.0, 24.0, 1.0 / 3.0) == 26.0 - 2.0 / 3.0;
    assert Round(26.0 - 2.0 / 3.0) == 25;
    assert LinearInterpolate(20.0, 30.0, 1.0 / 3.0) == 20.0 + 10.0 / 3.0;
    assert Round(20.0 + 10.0 / 3.0) == 23;
  }

  /** Two hours in, two thirds of the way: 25 degrees, 27 percent, cloudy. */
  lemma LosAngelesSecondFill()
    ensures var f := InterpolateForecast(EIGHT_AM, ELEVEN_AM, EIGHT_AM.time + 2 * HOUR_MS);
            && f.time == EIGHT_AM.time + 2 * HOUR_MS
            && f.temperature == 25.0 && f.precipitationProbability == 27.0 && f.weather == CLOUDS
  {
    assert Factor(EIGHT_AM, ELEVEN_AM, EIGHT_AM.time + 2 * HOUR_MS) == 2.0 / 3.0;
    assert LinearInterpolate(26.0, 24.0, 2.0 / 3.0) == 26.0 - 4.0 / 3.0;
    assert Round(26.0 - 4.0 / 3.0) == 25;
    assert LinearInterpolate(20.0, 30.0, 2.0 / 3.0) == 20.0 + 20.0 / 3.0;
    assert Round(20.0 + 20.0 / 3.0) == 27;
  }

  /** The whole pipeline on the test forecast with the clock at the first
      sample: all four hourly records lie in the 12-hour window, the first
      with temperature 26 and precipitation 20 percent; they make one day
      whose range is 24 to 26 and whose precipitation is the largest, 30.
      `Clear` and `Clouds` both occur twice, and the tie goes to `Clouds`,
      the category first seen later. */
  lemma LosAngelesPipeline()
    ensures var r := TransformForecast(LOS_ANGELES, TEST_NOW);
            && r.Success?
            && |r.value.hourlyForecast| == 4
            && r.value.hourlyForecast[0].temperature == 26.0
            && r.value.hourlyForecast[0].precipitationProbability == 20.0
            && |r.value.dailyForecast| == 1
            && r.value.dailyForecast[0].temperatureMin == 24.0
            && r.value.dailyForecast[0].temperatureMax == 26.0
            && r.value.dailyForecast[0].precipitationProbability == 30.0
            && r.value.dailyForecast[0].weather == CLOUDS
  {
    LosAngelesNormalized();
    LosAngelesInterpolated();
    var all := Interpolated([EIGHT_AM, ELEVEN_AM]);
    LosAngelesDay(all);
  }

  /** The four records in hour steps from 08:00 local time: the window keeps them all,
      and they make one summary with the stated extremes and condition. */
  lemma LosAngelesDay(all: seq<Hourly>)
    requires |all| == 4
    requires all[0] == EIGHT_AM && all[3] == ELEVEN_AM
    requires all[1].time == EIGHT_AM.time + HOUR_MS && all[2].time == EIGHT_AM.time + 2 * HOUR_MS
    requires all[1].temperature == 25.0 && all[2].temperature == 25.0
    requires all[1].precipitationProbability == 23.0 && all[2].precipitationProbability == 27.0
    requires all[1].weather == CLEAR && all[2].weather == CLOUDS
    ensures GetNext12HoursForecast(all, -28800, TEST_NOW) == all
    ensures GroupByDay(all) == [SummaryOf(19737, all)]
    ensures SummaryOf(19737, all).temperatureMin == 24.0
    ensures SummaryOf(19737, all).temperatureMax == 26.0
    ensures SummaryOf(19737, all).precipitationProbability == 30.0
    ensures SummaryOf(19737, all).weather == CLOUDS
  {
    LosAngelesWindow(all);
    LosAngelesOneDay(all);
    GroupSingleDay(all, 19737);
    var s := SummaryOf(19737, all);
    assert s.temperatureMin == MinOf(Temperatures(all)) && s.temperatureMax == MaxOf(Temperatures(all));
    assert s.precipitationProbability == MaxOf(PrecipitationProbabilities(all));
    LosAngelesExtremes(all);
    LosAngelesMode(all);
  }

  lemma LosAngelesExtremes(all: seq<Hourly>)
    requires |all| == 4
    requires all[0] == EIGHT_AM && all[3] == ELEVEN_AM
    requires all[1].temperature == 25.0 && all[2].temperature == 25.0
    requires all[1].precipitationProbability == 23.0 && all[2].precipitationProbability == 27.0
    ensures MinOf(Temperatures(all)) == 24.0 && MaxOf(Temperatures(all)) == 26.0
    ensures MaxOf(PrecipitationProbabilities(all)) == 30.0
  {
    LosAngelesReadings(all);
    var temps := Temperatures(all);
    var pops := PrecipitationProbabilities(all);
    SmallestAt(temps, 3);
    LargestAt(temps, 0);
    LargestAt(pops, 3);
  }

  /** The temperatures and precipitation percentages of the four records. */
  lemma LosAngelesReadings(all: seq<Hourly>)
    requires |all| == 4
    requires all[0] == EIGHT_AM && all[3] == ELEVEN_AM
    requires all[1].temperature == 25.0 && all[2].temperature == 25.0
    requires all[1].precipitationProbability == 23.0 && all[2].precipitationProbability == 27.0
    ensures Temperatures(all) == [26.0, 25.0, 25.0, 24.0]
    ensures PrecipitationProbabilities(all) == [20.0, 23.0, 27.0, 30.0]
  {
  }

  /** An element no larger than any other is the minimum. */
  lemma SmallestAt(xs: seq<real>, k: nat)
    requires k < |xs| && forall i :: 0 <= i < |xs| ==> xs[k] <= xs[i]
    ensures MinOf(xs) == xs[k]
  {
  }

  /** An element no smaller than any other is the maximum. */
  lemma LargestAt(xs: seq<real>, k: nat)
    requires k < |xs| && forall i :: 0 <= i < |xs| ==> xs[i] <= xs[k]
    ensures MaxOf(xs) == xs[k]
  {
  }

  lemma LosAngelesWindow(all: seq<Hourly>)
    requires |all| == 4
    requires all[0].time == EIGHT_AM.time && all[3].time == ELEVEN_AM.time
    requires all[1].time == EIGHT_AM.time + HOUR_MS && all[2].time == EIGHT_AM.time + 2 * HOUR_MS
    ensures GetNext12HoursForecast(all, -28800, TEST_NOW) == all
  {
    assert LocalNow(TEST_NOW, -28800) == EIGHT_AM.time;
    assert forall k :: 0 <= k < |all| ==> EIGHT_AM.time <= all[k].time <= EIGHT_AM.time + TWELVE_HOURS_MS;
    WholeInputInWindow(all, -28800, TEST_NOW);
  }

  lemma LosAngelesOneDay(all: seq<Hourly>)
    requires |all| == 4
    requires all[0].time == EIGHT_AM.time && all[3].time == ELEVEN_AM.time
    requires all[1].time == EIGHT_AM.time + HOUR_MS && all[2].time == EIGHT_AM.time + 2 * HOUR_MS
    ensures forall k :: 0 <= k < |all| ==> DayOf(all[k].time) == 19737
  {
    assert 19737 * DAY_MS == 1705276800000;
    forall k | 0 <= k < |all|
      ensures DayOf(all[k].time) == 19737
    {
      assert 1705276800000 <= all[k].time < 1705276800000 + DAY_MS;
    }
  }

  /** The day's mode: `Clear` (records 0 and 1) and `Clouds` (records 2
      and 3) tie; the category reduce keeps the later one, and its first
      record carries the `Clouds` condition. */
  lemma LosAngelesMode(all: seq<Hourly>)
    requires |all| == 4
    requires all[0].weather == CLEAR && all[1].weather == CLEAR
    requires all[2].weather == CLOUDS && all[3].weather == CLOUDS
    ensures RepresentativeWeather(all, MostCommon(Categories(all), CountMap(all))) == CLOUDS
  {
    assert all[..1][..0] == [];
    assert Categories(all[..1]) == ["Clear"];
    assert all[..2][..1] == all[..1];
    assert Categories(all[..2]) == ["Clear"];
    assert all[..3][..2] == all[..2];
    assert Categories(all[..3]) == ["Clear", "Clouds"];
    assert all[..4] == all;
    var cats := Categories(all);
    assert cats == ["Clear", "Clouds"];
    assert Count(all[..1], "Clear") == 1 && Count(all[..1], "Clouds") == 0;
    assert Count(all[..2], "Clear") == 2 && Count(all[..2], "Clouds") == 0;
    assert Count(all[..3], "Clear") == 2 && Count(all[..3], "Clouds") == 1;
    assert Count(all, "Clear") == 2 && Count(all, "Clouds") == 2;
    var counts := CountMap(all);
    assert counts["Clear"] == 2 && counts["Clouds"] == 2;
    assert cats[..1] == ["Clear"];
    assert MostCommon(cats, counts) == "Clouds";
    assert FirstIndexOf(all, "Clouds") == Some(2) by {
      assert FirstIndexOf(all[..1], "Clouds") == None;
      assert FirstIndexOf(all[..2], "Clouds") == None;
      assert FirstIndexOf(all[..3], "Clouds") == Some(2);
    }
  }
}
