/** The temporal interpolator of `src/services/weatherApi.ts`: it fills
    the gaps between the provider's 3-hour samples with synthetic hourly
    records. */
module Interpolation {
  import opened JsMath
  import opened ForecastTypes
  import opened Sequences

  /** `linearInterpolate`: `value1 + (value2 - value1) * factor`. */
  function LinearInterpolate(value1: real, value2: real, factor: real): (r: real)
    ensures factor == 0.0 ==> r == value1
    ensures factor == 1.0 ==> r == value2
  {
    value1 + (value2 - value1) * factor
  }

  function Min(x: real, y: real): real { if x <= y then x else y }
  function Max(x: real, y: real): real { if x <= y then y else x }

  /** The product of two non-negative reals is non-negative. */
  lemma MulNonnegative(x: real, y: real)
    requires 0.0 <= x && 0.0 <= y
    ensures 0.0 <= x * y
  {
  }

  /** Moving up from `lo` towards `hi` by a factor in [0, 1] stays within
      [lo, hi]. */
  lemma RisingBetween(lo: real, hi: real, factor: real)
    requires lo <= hi && 0.0 <= factor <= 1.0
    ensures lo <= LinearInterpolate(lo, hi, factor) <= hi
  {
    var span := hi - lo;
    MulNonnegative(span, factor);
    MulNonnegative(span, 1.0 - factor);
    assert span * (1.0 - factor) == span - span * factor;
  }

  /** Moving down from `hi` towards `lo` by a factor in [0, 1] stays within
      [lo, hi]. */
  lemma FallingBetween(lo: real, hi: real, factor: real)
    requires lo <= hi && 0.0 <= factor <= 1.0
    ensures lo <= LinearInterpolate(hi, lo, factor) <= hi
  {
    var span := hi - lo;
    MulNonnegative(span, factor);
    MulNonnegative(span, 1.0 - factor);
    assert span * (1.0 - factor) == span - span * factor;
    assert (lo - hi) * factor == -(span * factor);
  }

  /** For a factor in [0, 1] the interpolated value lies between the two
      endpoints, and its rounding between their roundings. */
  lemma LinearInterpolateBetween(value1: real, value2: real, factor: real)
    requires 0.0 <= factor <= 1.0
    ensures Min(value1, value2) <= LinearInterpolate(value1, value2, factor) <= Max(value1, value2)
    ensures Round(Min(value1, value2)) <= Round(LinearInterpolate(value1, value2, factor))
                                       <= Round(Max(value1, value2))
  {
    var v := LinearInterpolate(value1, value2, factor);
    if value1 <= value2 {
      RisingBetween(value1, value2, factor);
      RoundMonotone(value1, v);
      RoundMonotone(v, value2);
    } else {
      FallingBetween(value2, value1, factor);
      RoundMonotone(value2, v);
      RoundMonotone(v, value1);
    }
  }

  /** The signed difference `normDir2 - normDir1`, wrapped into
      [-180, 180] by one turn when it exceeds that range. */
  function AngularDifference(normDir1: real, normDir2: real): real
  {
    var diff := normDir2 - normDir1;
    if diff > 180.0 then diff - 360.0
    else if diff < -180.0 then diff + 360.0
    else diff
  }

  /** `interpolateWindDirection`: shortest-arc interpolation between two
      compass directions; the result is always in [0, 360). */
  function InterpolateWindDirection(dir1: real, dir2: real, factor: real): (r: real)
    ensures 0.0 <= r < 360.0
  {
    var normDir1 := NormalizeAngle(dir1);
    var normDir2 := NormalizeAngle(dir2);
    NormalizeAngleIsFloorMod(dir1);
    NormalizeAngleIsFloorMod(dir2);
    var result := normDir1 + AngularDifference(normDir1, normDir2) * factor;
    NormalizeAngleIsFloorMod(result);
    NormalizeAngle(result)
  }

  function Abs(x: real): real { if x < 0.0 then -x else x }

  /** The wrapped difference is a shortest signed arc from the first
      normalised direction to the second: it is at most half a turn, it
      lands on the second direction, and no other arc between the two
      (`diff + 360 * turns` for any whole number of turns) is shorter. */
  lemma ShortestArc(dir1: real, dir2: real, turns: int)
    ensures var n1 := NormalizeAngle(dir1);
            var n2 := NormalizeAngle(dir2);
            var diff := AngularDifference(n1, n2);
            && -180.0 <= diff <= 180.0
            && NormalizeAngle(n1 + diff) == n2
            && Abs(diff) <= Abs(n2 - n1 + 360.0 * turns as real)
  {
    var n1 := NormalizeAngle(dir1);
    var n2 := NormalizeAngle(dir2);
    NormalizeAngleIsFloorMod(dir1);
    NormalizeAngleIsFloorMod(dir2);
    var diff := AngularDifference(n1, n2);
    var raw := n2 - n1;
    if raw > 180.0 {
      assert n1 + diff == n2 + 360.0 * (-1) as real;
      NormalizeAngleShift(n2, -1);
    } else if raw < -180.0 {
      assert n1 + diff == n2 + 360.0 * 1 as real;
      NormalizeAngleShift(n2, 1);
    } else {
      assert n1 + diff == n2 + 360.0 * 0 as real;
      NormalizeAngleShift(n2, 0);
    }
  }

  /** The interpolation starts at the first direction and ends at the
      second. */
  lemma WindDirectionEndpoints(dir1: real, dir2: real)
    ensures InterpolateWindDirection(dir1, dir2, 0.0) == NormalizeAngle(dir1)
    ensures InterpolateWindDirection(dir1, dir2, 1.0) == NormalizeAngle(dir2)
  {
    NormalizeAngleIsFloorMod(dir1);
    NormalizeAngleShift(NormalizeAngle(dir1), 0);
    assert NormalizeAngle(dir1) + 360.0 * 0 as real == NormalizeAngle(dir1);
    ShortestArc(dir1, dir2, 0);
  }

  /** From 350 degrees to 10 degrees half way is north (0), not south
      (180): the interpolation crosses north along the 20-degree arc. */
  lemma WindDirectionAcrossNorth()
    ensures InterpolateWindDirection(350.0, 10.0, 0.5) == 0.0
  {
    NormalizeAngleShift(350.0, 0);
    assert 350.0 + 360.0 * 0 as real == 350.0;
    NormalizeAngleShift(10.0, 0);
    assert 10.0 + 360.0 * 0 as real == 10.0;
    NormalizeAngleShift(0.0, 1);
    assert 0.0 + 360.0 * 1 as real == 360.0;
  }

  /** The interpolation factor `(targetTime - time1) / (time2 - time1)`. */
  function Factor(a: Hourly, b: Hourly, targetTime: int): real
    requires a.time < b.time
  {
    (targetTime - a.time) as real / (b.time - a.time) as real
  }

  /** `interpolateForecast`: the synthetic record at `targetTime` between
      `a` and `b`. Its only caller passes records more than an hour apart. */
  function InterpolateForecast(a: Hourly, b: Hourly, targetTime: int): (r: Hourly)
    requires a.time < b.time
    ensures r.time == targetTime
    ensures r.weather == (if Factor(a, b, targetTime) < 0.5 then a.weather else b.weather)
  {
    var factor := Factor(a, b, targetTime);
    Hourly(
      targetTime,
      Round(LinearInterpolate(a.temperature, b.temperature, factor)) as real,
      Round(LinearInterpolate(a.feelsLike, b.feelsLike, factor)) as real,
      Round(LinearInterpolate(a.humidity, b.humidity, factor)) as real,
      Round(LinearInterpolate(a.pressure, b.pressure, factor)) as real,
      RoundTenth(LinearInterpolate(a.windSpeed, b.windSpeed, factor)),
      Round(InterpolateWindDirection(a.windDirection, b.windDirection, factor)) as real,
      Round(LinearInterpolate(a.visibility, b.visibility, factor)) as real,
      Round(LinearInterpolate(a.precipitationProbability, b.precipitationProbability, factor)) as real,
      if factor < 0.5 then a.weather else b.weather)
  }

  /** `v` is a rounded value lying between the rounded endpoints `x` and `y`. */
  ghost predicate RoundedBetween(v: real, x: real, y: real)
  {
    && v == v.Floor as real
    && Round(Min(x, y)) as real <= v <= Round(Max(x, y)) as real
  }

  /** Every synthetic record strictly inside the interval: its factor lies
      in (0, 1); each numeric reading is a rounded value between the
      endpoints' readings (so [0, 100] bounds of humidity and precipitation
      carry over); wind speed is within 0.05 of the interpolated value and
      has one decimal; the rounded wind direction lies in [0, 360] (360
      included); the condition is that of the nearer endpoint. */
  lemma InterpolatedRecord(a: Hourly, b: Hourly, t: int)
    requires a.time < t < b.time
    ensures 0.0 < Factor(a, b, t) < 1.0
    ensures var r := InterpolateForecast(a, b, t);
            && RoundedBetween(r.temperature, a.temperature, b.temperature)
            && RoundedBetween(r.feelsLike, a.feelsLike, b.feelsLike)
            && RoundedBetween(r.humidity, a.humidity, b.humidity)
            && RoundedBetween(r.pressure, a.pressure, b.pressure)
            && RoundedBetween(r.visibility, a.visibility, b.visibility)
            && RoundedBetween(r.precipitationProbability, a.precipitationProbability, b.precipitationProbability)
            && (r.windSpeed * 10.0).Floor as real == r.windSpeed * 10.0
            && Min(a.windSpeed, b.windSpeed) - 0.05 < r.windSpeed <= Max(a.windSpeed, b.windSpeed) + 0.05
            && 0.0 <= r.windDirection <= 360.0
            && r.weather == (if Factor(a, b, t) < 0.5 then a.weather else b.weather)
  {
    var f := Factor(a, b, t);
    var num := (t - a.time) as real;
    var den := (b.time - a.time) as real;
    assert f * den == num;
    assert 0.0 < f < 1.0;
    LinearInterpolateBetween(a.temperature, b.temperature, f);
    LinearInterpolateBetween(a.feelsLike, b.feelsLike, f);
    LinearInterpolateBetween(a.humidity, b.humidity, f);
    LinearInterpolateBetween(a.pressure, b.pressure, f);
    LinearInterpolateBetween(a.windSpeed, b.windSpeed, f);
    LinearInterpolateBetween(a.visibility, b.visibility, f);
    LinearInterpolateBetween(a.precipitationProbability, b.precipitationProbability, f);
    var w := InterpolateWindDirection(a.windDirection, b.windDirection, f);
    assert 0 <= Round(w) <= 360;
  }

  /** The rounded wind direction of a synthetic record can be 360: two
      samples at 359.6 degrees give 359.6, which `Math.round` makes 360. */
  lemma WindDirection360Reachable()
    ensures var c := Condition("Clear", "clear sky", "01d");
            var a := Hourly(0, 20.0, 20.0, 50.0, 1000.0, 1.0, 359.6, 10000.0, 0.0, c);
            var b := Hourly(3 * HOUR_MS, 20.0, 20.0, 50.0, 1000.0, 1.0, 359.6, 10000.0, 0.0, c);
            InterpolateForecast(a, b, HOUR_MS).windDirection == 360.0
  {
    NormalizeAngleShift(359.6, 0);
    assert 359.6 + 360.0 * 0 as real == 359.6;
  }

  /** Number of synthetic records between `a` and `b`:
      `Math.floor(hoursDiff) - 1` when `hoursDiff > 1`, otherwise none. */
  function GapCount(a: Hourly, b: Hourly): (k: nat)
    ensures k > 0 ==> a.time < b.time
  {
    var hoursDiff := (b.time - a.time) as real / HOUR_MS as real;
    if hoursDiff > 1.0 then hoursDiff.Floor - 1 else 0
  }

  /** A gap of more than one hour yields whole hours minus one records,
      the last of them strictly before `b`; a gap of an hour or less, or a
      negative gap, yields none. A 3-hour gap yields two. */
  lemma GapCountSpec(a: Hourly, b: Hourly)
    ensures b.time - a.time > HOUR_MS ==> GapCount(a, b) == (b.time - a.time) / HOUR_MS - 1
    ensures b.time - a.time <= HOUR_MS ==> GapCount(a, b) == 0
    ensures a.time + GapCount(a, b) * HOUR_MS < b.time || GapCount(a, b) == 0
    ensures b.time - a.time == 3 * HOUR_MS ==> GapCount(a, b) == 2
  {
    var d := b.time - a.time;
    var hoursDiff := d as real / HOUR_MS as real;
    if d > HOUR_MS {
      var q := d / HOUR_MS;
      assert q * HOUR_MS <= d < q * HOUR_MS + HOUR_MS;
      assert q as real <= hoursDiff < q as real + 1.0;
      FloorIs(hoursDiff, q);
    }
  }

  /** The synthetic records between `a` and `b`, at one-hour steps after `a`. */
  function Gap(a: Hourly, b: Hourly): (g: seq<Hourly>)
    ensures |g| == GapCount(a, b)
  {
    seq(GapCount(a, b), j requires 0 <= j < GapCount(a, b) =>
      InterpolateForecast(a, b, a.time + (j + 1) * HOUR_MS))
  }

  /** What the outer loop has pushed after its first `n` iterations: each
      sample followed by the records filling the gap to its successor. */
  function Segments(fs: seq<Hourly>, n: nat): seq<Hourly>
    requires n < |fs|
  {
    if n == 0 then []
    else Segments(fs, n - 1) + [fs[n - 1]] + Gap(fs[n - 1], fs[n])
  }

  /** `createHourlyInterpolatedForecasts` as a value: fewer than two samples
      come back unchanged, otherwise every gap is filled and the last
      sample appended. */
  function Interpolated(fs: seq<Hourly>): seq<Hourly>
  {
    if |fs| < 2 then fs else Segments(fs, |fs| - 1) + [fs[|fs| - 1]]
  }

  /** `createHourlyInterpolatedForecasts`: the nested loops of the source,
      pushing onto a list. */
  method CreateHourlyInterpolatedForecasts(forecasts: seq<Hourly>) returns (interpolated: seq<Hourly>)
    ensures interpolated == Interpolated(forecasts)
  {
    if |forecasts| < 2 {
      return forecasts;
    }
    interpolated := [];
    var i := 0;
    while i < |forecasts| - 1
      invariant 0 <= i <= |forecasts| - 1
      invariant interpolated == Segments(forecasts, i)
    {
      var current := forecasts[i];
      var next := forecasts[i + 1];
      interpolated := interpolated + [current];
      var timeDiffMs := next.time - current.time;
      var hoursDiff := timeDiffMs as real / HOUR_MS as real;
      if hoursDiff > 1.0 {
        var hoursToInterpolate := hoursDiff.Floor - 1;
        ghost var before := interpolated;
        var h := 1;
        while h <= hoursToInterpolate
          invariant 1 <= h <= hoursToInterpolate + 1
          invariant interpolated == before + Gap(current, next)[..h - 1]
        {
          var interpolatedForecast := InterpolateForecast(current, next, current.time + h * HOUR_MS);
          GapPrefixStep(current, next, h);
          AppendOneMore(before, Gap(current, next)[..h - 1], interpolatedForecast);
          interpolated := interpolated + [interpolatedForecast];
          h := h + 1;
        }
        assert Gap(current, next)[..h - 1] == Gap(current, next);
      }
      i := i + 1;
    }
    interpolated := interpolated + [forecasts[|forecasts| - 1]];
  }

  /** The inner loop's step: the filler records up to hour `h` are those
      up to hour `h - 1` followed by the interpolation at hour `h`. */
  lemma GapPrefixStep(a: Hourly, b: Hourly, h: nat)
    requires 1 <= h <= GapCount(a, b)
    ensures Gap(a, b)[..h] == Gap(a, b)[..h - 1] + [InterpolateForecast(a, b, a.time + h * HOUR_MS)]
  {
    TakeOneMore(Gap(a, b), h - 1);
    assert Gap(a, b)[h - 1] == InterpolateForecast(a, b, a.time + (h - 1 + 1) * HOUR_MS);
  }

  /** Where sample `i` lands in the output: after everything the first
      `i` iterations pushed. */
  function SamplePosition(fs: seq<Hourly>, i: nat): nat
    requires i < |fs|
  {
    |Segments(fs, i)|
  }

  /** The output of an earlier iteration is a prefix of a later one's. */
  lemma {:induction false} SegmentsPrefix(fs: seq<Hourly>, n: nat, m: nat)
    requires n <= m < |fs|
    ensures Segments(fs, n) <= Segments(fs, m)
  {
    if n < m {
      SegmentsPrefix(fs, n, m - 1);
    }
  }

  /** Fewer than two samples come back unchanged; otherwise every sample
      appears unchanged at its position, the first sample first and the
      last sample last. */
  lemma SamplesKept(fs: seq<Hourly>, i: nat)
    requires i < |fs|
    ensures |fs| < 2 ==> Interpolated(fs) == fs
    ensures SamplePosition(fs, i) < |Interpolated(fs)|
    ensures Interpolated(fs)[SamplePosition(fs, i)] == fs[i]
    ensures i == 0 ==> SamplePosition(fs, i) == 0
    ensures i == |fs| - 1 ==> SamplePosition(fs, i) == |Interpolated(fs)| - 1
  {
    if |fs| < 2 {
      assert Segments(fs, 0) == [];
    } else if i < |fs| - 1 {
      SegmentsPrefix(fs, i + 1, |fs| - 1);
      var s := Segments(fs, i + 1);
      assert s == Segments(fs, i) + [fs[i]] + Gap(fs[i], fs[i + 1]);
      assert s[|Segments(fs, i)|] == fs[i];
    }
  }

  /** The h-th filler record lies strictly between the samples and is the
      interpolation at `h` hours after the first. */
  lemma GapRecord(a: Hourly, b: Hourly, h: nat)
    requires 1 <= h <= GapCount(a, b)
    ensures a.time < a.time + h * HOUR_MS < b.time
    ensures Gap(a, b)[h - 1] == InterpolateForecast(a, b, a.time + h * HOUR_MS)
  {
    GapCountSpec(a, b);
    assert h * HOUR_MS <= GapCount(a, b) * HOUR_MS;
    assert (h - 1 + 1) * HOUR_MS == h * HOUR_MS;
  }

  /** The records filling the gap after sample `i` sit right after it in
      the output. */
  lemma GapInOutput(fs: seq<Hourly>, i: nat, k: nat)
    requires i + 1 < |fs|
    ensures SamplePosition(fs, i + 1) == SamplePosition(fs, i) + 1 + GapCount(fs[i], fs[i + 1])
    ensures k < GapCount(fs[i], fs[i + 1]) ==>
              && SamplePosition(fs, i) + 1 + k < |Interpolated(fs)|
              && Interpolated(fs)[SamplePosition(fs, i) + 1 + k] == Gap(fs[i], fs[i + 1])[k]
  {
    SegmentsStep(fs, i);
    if k < GapCount(fs[i], fs[i + 1]) {
      GapRecordInOutput(fs, i, k);
    }
  }

  /** The `k`-th record of the gap after sample `i`, located in the output. */
  lemma GapRecordInOutput(fs: seq<Hourly>, i: nat, k: nat)
    requires i + 1 < |fs| && k < GapCount(fs[i], fs[i + 1])
    ensures var pos := |Segments(fs, i)| + 1 + k;
            pos < |Interpolated(fs)| && Interpolated(fs)[pos] == Gap(fs[i], fs[i + 1])[k]
  {
    var pre := Segments(fs, i);
    SegmentsStep(fs, i);
    SegmentsInOutput(fs, i + 1);
    IndexAfterSample(pre, fs[i], Gap(fs[i], fs[i + 1]), k);
    PrefixIndex(Segments(fs, i + 1), Interpolated(fs), |pre| + 1 + k);
  }

  /** One more turn of the outer loop pushes the sample and its gap. */
  lemma SegmentsStep(fs: seq<Hourly>, i: nat)
    requires i + 1 < |fs|
    ensures Segments(fs, i + 1) == Segments(fs, i) + [fs[i]] + Gap(fs[i], fs[i + 1])
  {
  }

  /** Whatever the outer loop has pushed so far is a prefix of the final
      output. */
  lemma SegmentsInOutput(fs: seq<Hourly>, n: nat)
    requires n < |fs|
    ensures Segments(fs, n) <= Interpolated(fs)
  {
    if 2 <= |fs| {
      SegmentsPrefix(fs, n, |fs| - 1);
    }
  }

  /** Position of a filler record in `pre + [x] + g`. */
  lemma IndexAfterSample(pre: seq<Hourly>, x: Hourly, g: seq<Hourly>, k: nat)
    requires k < |g|
    ensures (pre + [x] + g)[|pre| + 1 + k] == g[k]
  {
  }

  /** Between consecutive samples `fs[i]` and `fs[i + 1]` the output holds
      exactly `GapCount` synthetic records, the h-th of them interpolated
      at `h` hours after `fs[i]` and strictly between the two samples. */
  lemma GapFilled(fs: seq<Hourly>, i: nat, h: nat)
    requires i + 1 < |fs|
    requires 1 <= h <= GapCount(fs[i], fs[i + 1])
    ensures SamplePosition(fs, i + 1) == SamplePosition(fs, i) + 1 + GapCount(fs[i], fs[i + 1])
    ensures fs[i].time < fs[i].time + h * HOUR_MS < fs[i + 1].time
    ensures SamplePosition(fs, i) + h < |Interpolated(fs)|
    ensures Interpolated(fs)[SamplePosition(fs, i) + h]
            == InterpolateForecast(fs[i], fs[i + 1], fs[i].time + h * HOUR_MS)
  {
    SegmentsStep(fs, i);
    GapRecordInOutput(fs, i, h - 1);
    GapRecord(fs[i], fs[i + 1], h);
  }

  /** Samples an hour or less apart (or out of order) get nothing between
      them: they stay adjacent in the output. */
  lemma NoGapWithinAnHour(fs: seq<Hourly>, i: nat)
    requires i + 1 < |fs|
    requires fs[i + 1].time - fs[i].time <= HOUR_MS
    ensures SamplePosition(fs, i + 1) == SamplePosition(fs, i) + 1
  {
    GapCountSpec(fs[i], fs[i + 1]);
  }

  /** Two time-ordered runs joined end to end stay time-ordered when the
      first ends before the second begins. */
  lemma IncreasingConcat(x: seq<Hourly>, y: seq<Hourly>)
    requires TimesIncreasing(x) && TimesIncreasing(y)
    requires x != [] && y != [] ==> x[|x| - 1].time < y[0].time
    ensures TimesIncreasing(x + y)
  {
    forall i, j | 0 <= i < j < |x + y|
      ensures (x + y)[i].time < (x + y)[j].time
    {
      if i < |x| && j >= |x| {
        assert x[i].time <= x[|x| - 1].time;
        assert y[0].time <= y[j - |x|].time;
      }
    }
  }

  /** The filler records of a gap are an hour apart, after `a`, and end
      before `b`. */
  lemma GapIncreasing(a: Hourly, b: Hourly)
    ensures TimesIncreasing(Gap(a, b) + [b])
    ensures Gap(a, b) != [] ==> a.time < Gap(a, b)[0].time
  {
    var g := Gap(a, b) + [b];
    forall i, j | 0 <= i < j < |g|
      ensures g[i].time < g[j].time
    {
      GapPair(a, b, i, j);
    }
    if GapCount(a, b) > 0 {
      GapTime(a, b, 0);
    }
  }

  /** Two positions of a gap followed by `b` are in time order. */
  lemma GapPair(a: Hourly, b: Hourly, i: nat, j: nat)
    requires i < j <= GapCount(a, b)
    ensures (Gap(a, b) + [b])[i].time < (Gap(a, b) + [b])[j].time
  {
    var k := GapCount(a, b);
    var g := Gap(a, b) + [b];
    GapTime(a, b, i);
    assert g[i] == Gap(a, b)[i];
    if j < k {
      GapTime(a, b, j);
      assert g[j] == Gap(a, b)[j];
    } else {
      GapCountSpec(a, b);
      assert g[j] == b;
      assert (i + 1) * HOUR_MS <= k * HOUR_MS;
    }
  }

  /** The k-th filler record sits k + 1 hours after `a`. */
  lemma GapTime(a: Hourly, b: Hourly, k: nat)
    requires k < GapCount(a, b)
    ensures Gap(a, b)[k].time == a.time + (k + 1) * HOUR_MS
  {
  }

  /** Each iteration's output followed by the next sample is time-ordered
      when the samples are. */
  lemma {:induction false} SegmentsIncreasing(fs: seq<Hourly>, n: nat)
    requires n < |fs| && TimesIncreasing(fs)
    ensures TimesIncreasing(Segments(fs, n) + [fs[n]])
  {
    if n > 0 {
      SegmentsIncreasing(fs, n - 1);
      GapIncreasing(fs[n - 1], fs[n]);
      IncreasingConcat(Segments(fs, n - 1) + [fs[n - 1]], Gap(fs[n - 1], fs[n]) + [fs[n]]);
      assert Segments(fs, n) + [fs[n]]
          == (Segments(fs, n - 1) + [fs[n - 1]]) + (Gap(fs[n - 1], fs[n]) + [fs[n]]);
    }
  }

  /** When sample times strictly increase, so do the output times. */
  lemma InterpolatedIncreasing(fs: seq<Hourly>)
    requires TimesIncreasing(fs)
    ensures TimesIncreasing(Interpolated(fs))
  {
    if |fs| >= 2 {
      SegmentsIncreasing(fs, |fs| - 1);
    }
  }
}
