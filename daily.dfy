/** The day aggregator of `src/services/weatherApi.ts`
    (`groupForecastsByDay`): records are bucketed by calendar day, each
    bucket is reduced to a summary, and the summaries are sorted by date. */
module DailyAggregation {
  import opened Wrappers
  import opened JsMath
  import opened ForecastTypes
  import opened Sequences

  // ---------------------------------------------------------------------
  // Bucketing: the first `reduce` into an object keyed by day.
  // ---------------------------------------------------------------------

  /** The days of `fs` in order of first appearance: the key order of the
      accumulator object. */
  function DaysInOrder(fs: seq<Hourly>): (days: seq<int>)
    ensures forall d :: d in days <==> exists k :: 0 <= k < |fs| && DayOf(fs[k].time) == d
    ensures forall i, j :: 0 <= i < j < |days| ==> days[i] != days[j]
  {
    if fs == [] then []
    else
      var prev := DaysInOrder(fs[..|fs| - 1]);
      var d := DayOf(fs[|fs| - 1].time);
      assert forall k :: 0 <= k < |fs| - 1 ==> fs[..|fs| - 1][k] == fs[k];
      if d in prev then prev else prev + [d]
  }

  /** The records of day `d`, in input order: `acc[dateKey]`. */
  function Members(fs: seq<Hourly>, d: int): (ms: seq<Hourly>)
    ensures forall f :: f in ms <==> f in fs && DayOf(f.time) == d
  {
    Filter(fs, (f: Hourly) => DayOf(f.time) == d)
  }

  lemma MembersSnoc(fs: seq<Hourly>, x: Hourly, d: int)
    ensures Members(fs + [x], d) == Members(fs, d) + (if DayOf(x.time) == d then [x] else [])
  {
    FilterSnoc(fs, x, (f: Hourly) => DayOf(f.time) == d);
  }

  /** A day's bucket is exactly the order-preserving subsequence of the
      input records that fall on that day: `idx` lists the positions taken,
      increasing, and a position is taken iff its record is on day `d`. */
  lemma MembersInInputOrder(fs: seq<Hourly>, d: int) returns (idx: seq<nat>)
    ensures |idx| == |Members(fs, d)|
    ensures forall k :: 0 <= k < |idx| ==> idx[k] < |fs| && Members(fs, d)[k] == fs[idx[k]]
    ensures forall k, m :: 0 <= k < m < |idx| ==> idx[k] < idx[m]
    ensures forall i :: 0 <= i < |fs| ==> (i in idx <==> DayOf(fs[i].time) == d)
  {
    idx := FilterPositions(fs, (f: Hourly) => DayOf(f.time) == d);
  }

  // ---------------------------------------------------------------------
  // Aggregates of one bucket.
  // ---------------------------------------------------------------------

  function Temperatures(ms: seq<Hourly>): (xs: seq<real>)
    ensures |xs| == |ms|
  {
    seq(|ms|, i requires 0 <= i < |ms| => ms[i].temperature)
  }

  function Humidities(ms: seq<Hourly>): (xs: seq<real>)
    ensures |xs| == |ms|
  {
    seq(|ms|, i requires 0 <= i < |ms| => ms[i].humidity)
  }

  function Pressures(ms: seq<Hourly>): (xs: seq<real>)
    ensures |xs| == |ms|
  {
    seq(|ms|, i requires 0 <= i < |ms| => ms[i].pressure)
  }

  function WindSpeeds(ms: seq<Hourly>): (xs: seq<real>)
    ensures |xs| == |ms|
  {
    seq(|ms|, i requires 0 <= i < |ms| => ms[i].windSpeed)
  }

  function PrecipitationProbabilities(ms: seq<Hourly>): (xs: seq<real>)
    ensures |xs| == |ms|
  {
    seq(|ms|, i requires 0 <= i < |ms| => ms[i].precipitationProbability)
  }

  /** `Math.min(...xs)` of a non-empty list: a member no greater than any. */
  function MinOf(xs: seq<real>): (m: real)
    requires |xs| > 0
    ensures m in xs
    ensures forall i :: 0 <= i < |xs| ==> m <= xs[i]
  {
    if |xs| == 1 then xs[0]
    else
      var rest := MinOf(xs[1..]);
      assert forall i :: 1 <= i < |xs| ==> xs[i] == xs[1..][i - 1];
      if xs[0] <= rest then xs[0] else rest
  }

  /** `Math.max(...xs)` of a non-empty list: a member no less than any. */
  function MaxOf(xs: seq<real>): (m: real)
    requires |xs| > 0
    ensures m in xs
    ensures forall i :: 0 <= i < |xs| ==> xs[i] <= m
  {
    if |xs| == 1 then xs[0]
    else
      var rest := MaxOf(xs[1..]);
      assert forall i :: 1 <= i < |xs| ==> xs[i] == xs[1..][i - 1];
      if xs[0] >= rest then xs[0] else rest
  }

  /** `xs.reduce((sum, x) => sum + x, 0)`. */
  function Sum(xs: seq<real>): real
  {
    if xs == [] then 0.0 else xs[0] + Sum(xs[1..])
  }

  /** The arithmetic mean of a non-empty list. */
  function Mean(xs: seq<real>): real
    requires |xs| > 0
  {
    Sum(xs) / |xs| as real
  }

  /** A sum of values within [lo, hi] lies within [n * lo, n * hi]. */
  lemma {:induction false} SumBounds(xs: seq<real>, lo: real, hi: real)
    requires forall i :: 0 <= i < |xs| ==> lo <= xs[i] <= hi
    ensures |xs| as real * lo <= Sum(xs) <= |xs| as real * hi
  {
    if xs != [] {
      SumBounds(xs[1..], lo, hi);
      assert (|xs| - 1) as real * lo + lo == |xs| as real * lo;
      assert (|xs| - 1) as real * hi + hi == |xs| as real * hi;
    }
  }

  /** The mean of values within [lo, hi] lies within [lo, hi], and so does
      its rounding within the rounded bounds. */
  lemma MeanBetween(xs: seq<real>, lo: real, hi: real)
    requires |xs| > 0
    requires forall i :: 0 <= i < |xs| ==> lo <= xs[i] <= hi
    ensures lo <= Mean(xs) <= hi
    ensures Round(lo) <= Round(Mean(xs)) <= Round(hi)
  {
    SumBounds(xs, lo, hi);
    var n := |xs| as real;
    assert Mean(xs) * n == Sum(xs);
    if Mean(xs) < lo {
      assert Mean(xs) * n < lo * n;
    }
    if Mean(xs) > hi {
      assert Mean(xs) * n > hi * n;
    }
    RoundMonotone(lo, Mean(xs));
    RoundMonotone(Mean(xs), hi);
  }

  // ---------------------------------------------------------------------
  // The most common condition: the `weatherCounts` reduce and the
  // strict-`>` reduce over its entries.
  // ---------------------------------------------------------------------

  predicate HasMain(ms: seq<Hourly>, c: string)
  {
    exists k :: 0 <= k < |ms| && ms[k].weather.main == c
  }

  /** The condition categories of `ms` in order of first appearance: the
      key order of `weatherCounts`. */
  function Categories(ms: seq<Hourly>): (cats: seq<string>)
    ensures forall i :: 0 <= i < |cats| ==> HasMain(ms, cats[i])
    ensures forall k :: 0 <= k < |ms| ==> ms[k].weather.main in cats
  {
    if ms == [] then []
    else
      var prev := Categories(ms[..|ms| - 1]);
      var c := ms[|ms| - 1].weather.main;
      assert forall k :: 0 <= k < |ms| - 1 ==> ms[..|ms| - 1][k] == ms[k];
      if c in prev then prev else prev + [c]
  }

  /** Each category is listed once: the keys of an object are distinct. */
  lemma {:induction false} CategoriesDistinct(ms: seq<Hourly>)
    ensures forall i, j :: 0 <= i < j < |Categories(ms)| ==> Categories(ms)[i] != Categories(ms)[j]
  {
    if ms != [] {
      var p := ms[..|ms| - 1];
      CategoriesDistinct(p);
      var prev := Categories(p);
      var c := ms[|ms| - 1].weather.main;
      var cats := Categories(ms);
      assert cats == if c in prev then prev else prev + [c];
      forall i, j | 0 <= i < j < |cats|
        ensures cats[i] != cats[j]
      {
        if j == |prev| {
          assert cats[j] == c && cats[i] == prev[i] && prev[i] in prev;
        } else {
          assert cats[i] == prev[i] && cats[j] == prev[j];
        }
      }
    }
  }

  /** How many records of `ms` have category `c`. */
  function Count(ms: seq<Hourly>, c: string): (n: nat)
    ensures n > 0 <==> HasMain(ms, c)
    ensures n <= |ms|
  {
    if ms == [] then 0
    else
      assert forall k :: 0 <= k < |ms| - 1 ==> ms[..|ms| - 1][k] == ms[k];
      Count(ms[..|ms| - 1], c) + (if ms[|ms| - 1].weather.main == c then 1 else 0)
  }

  /** `weatherCounts`: each category's number of records. */
  function CountMap(ms: seq<Hourly>): (m: map<string, nat>)
    ensures forall c :: c in m <==> c in Categories(ms)
  {
    map c | c in Categories(ms) :: Count(ms, c)
  }

  /** `Object.entries(weatherCounts).reduce((a, b) => counts[a] > counts[b] ? a : b)`. */
  function MostCommon(cats: seq<string>, counts: map<string, nat>): (c: string)
    requires |cats| > 0
    requires forall i :: 0 <= i < |cats| ==> cats[i] in counts
    ensures c in cats
  {
    if |cats| == 1 then cats[0]
    else
      var a := MostCommon(cats[..|cats| - 1], counts);
      var b := cats[|cats| - 1];
      if counts[a] > counts[b] then a else b
  }

  /** The reduce picks a category of highest count, and among the
      categories tied for it the one that comes last: every later category
      has a strictly smaller count. */
  lemma {:induction false} MostCommonIsLastMaximal(cats: seq<string>, counts: map<string, nat>) returns (w: nat)
    requires |cats| > 0
    requires forall i :: 0 <= i < |cats| ==> cats[i] in counts
    ensures w < |cats| && cats[w] == MostCommon(cats, counts)
    ensures forall i :: 0 <= i < |cats| ==> counts[cats[i]] <= counts[cats[w]]
    ensures forall i :: w < i < |cats| ==> counts[cats[i]] < counts[cats[w]]
  {
    if |cats| == 1 {
      w := 0;
    } else {
      var n := |cats| - 1;
      var prefix := cats[..n];
      assert forall i :: 0 <= i < n ==> cats[i] == prefix[i];
      var w' := MostCommonIsLastMaximal(prefix, counts);
      if counts[prefix[w']] > counts[cats[n]] {
        w := w';
      } else {
        w := n;
      }
    }
  }

  /** `dayForecasts.find(f => f.weather.main === c)`, as a position. */
  function FirstIndexOf(ms: seq<Hourly>, c: string): (r: Option<nat>)
    ensures r.Some? <==> HasMain(ms, c)
    ensures r.Some? ==> r.value < |ms| && ms[r.value].weather.main == c
    ensures r.Some? ==> forall k :: 0 <= k < r.value ==> ms[k].weather.main != c
  {
    if ms == [] then None
    else
      assert forall k :: 0 <= k < |ms| - 1 ==> ms[..|ms| - 1][k] == ms[k];
      match FirstIndexOf(ms[..|ms| - 1], c)
      case Some(j) => Some(j)
      case None => if ms[|ms| - 1].weather.main == c then Some(|ms| - 1) else None
  }

  /** Categories are listed in the order their first records appear. */
  lemma {:induction false} CategoriesInFirstSeenOrder(ms: seq<Hourly>, i: nat, j: nat)
    requires i < j < |Categories(ms)|
    ensures FirstIndexOf(ms, Categories(ms)[i]).value < FirstIndexOf(ms, Categories(ms)[j]).value
  {
    var n := |ms| - 1;
    var p := ms[..n];
    var cats := Categories(ms);
    var prev := Categories(p);
    if j < |prev| {
      CategoriesInFirstSeenOrder(p, i, j);
    } else {
      assert cats[j] == ms[n].weather.main && cats[j] !in prev;
      assert FirstIndexOf(p, cats[j]) == None;
    }
  }

  /** `find(...)?.weather || dayForecasts[0].weather`. */
  function RepresentativeWeather(ms: seq<Hourly>, mostCommon: string): Condition
    requires |ms| > 0
  {
    match FirstIndexOf(ms, mostCommon)
    case Some(j) => ms[j].weather
    case None => ms[0].weather
  }

  // ---------------------------------------------------------------------
  // One summary.
  // ---------------------------------------------------------------------

  /** The summary the `map` callback builds for day `d` with bucket `ms`. */
  function SummaryOf(d: int, ms: seq<Hourly>): (s: DailyForecast)
    requires |ms| > 0
    ensures s.date == DayStart(d) && DayOf(s.date) == d
    ensures s.forecasts == ms
  {
    var cats := Categories(ms);
    assert ms[0].weather.main in cats;
    DailyForecast(
      DayStart(d),
      MinOf(Temperatures(ms)),
      MaxOf(Temperatures(ms)),
      Round(Mean(Humidities(ms))) as real,
      Round(Mean(Pressures(ms))) as real,
      RoundTenth(Mean(WindSpeeds(ms))),
      MaxOf(PrecipitationProbabilities(ms)),
      RepresentativeWeather(ms, MostCommon(cats, CountMap(ms))),
      ms)
  }

  /** The temperature range of a summary: the minimum and maximum are
      members' temperatures and bound all of them; the precipitation
      probability is the largest member's. */
  lemma SummaryExtremes(d: int, ms: seq<Hourly>)
    requires |ms| > 0
    ensures var s := SummaryOf(d, ms);
            && s.date == DayStart(d) && s.forecasts == ms
            && s.temperatureMin <= s.temperatureMax
            && (exists i :: 0 <= i < |ms| && ms[i].temperature == s.temperatureMin)
            && (exists i :: 0 <= i < |ms| && ms[i].temperature == s.temperatureMax)
            && (forall i :: 0 <= i < |ms| ==> s.temperatureMin <= ms[i].temperature <= s.temperatureMax)
            && (exists i :: 0 <= i < |ms| && ms[i].precipitationProbability == s.precipitationProbability)
            && (forall i :: 0 <= i < |ms| ==> ms[i].precipitationProbability <= s.precipitationProbability)
  {
    var s := SummaryOf(d, ms);
    var temps := Temperatures(ms);
    assert forall i :: 0 <= i < |ms| ==> temps[i] == ms[i].temperature;
    var precs := PrecipitationProbabilities(ms);
    assert forall i :: 0 <= i < |ms| ==> precs[i] == ms[i].precipitationProbability;
    assert s.temperatureMin <= temps[0] <= s.temperatureMax;
  }

  lemma HumidityMeanWithin(ms: seq<Hourly>, lo: real, hi: real)
    requires |ms| > 0
    ensures (forall i :: 0 <= i < |ms| ==> lo <= ms[i].humidity <= hi) ==>
              Round(lo) <= Round(Mean(Humidities(ms))) <= Round(hi)
  {
    if forall i :: 0 <= i < |ms| ==> lo <= ms[i].humidity <= hi {
      var xs := Humidities(ms);
      assert forall i :: 0 <= i < |xs| ==> xs[i] == ms[i].humidity;
      MeanBetween(xs, lo, hi);
    }
  }

  lemma PressureMeanWithin(ms: seq<Hourly>, lo: real, hi: real)
    requires |ms| > 0
    ensures (forall i :: 0 <= i < |ms| ==> lo <= ms[i].pressure <= hi) ==>
              Round(lo) <= Round(Mean(Pressures(ms))) <= Round(hi)
  {
    if forall i :: 0 <= i < |ms| ==> lo <= ms[i].pressure <= hi {
      var xs := Pressures(ms);
      assert forall i :: 0 <= i < |xs| ==> xs[i] == ms[i].pressure;
      MeanBetween(xs, lo, hi);
    }
  }

  lemma WindSpeedMeanWithin(ms: seq<Hourly>, lo: real, hi: real)
    requires |ms| > 0
    ensures (forall i :: 0 <= i < |ms| ==> lo <= ms[i].windSpeed <= hi) ==>
              lo <= Mean(WindSpeeds(ms)) <= hi
  {
    if forall i :: 0 <= i < |ms| ==> lo <= ms[i].windSpeed <= hi {
      var xs := WindSpeeds(ms);
      assert forall i :: 0 <= i < |xs| ==> xs[i] == ms[i].windSpeed;
      MeanBetween(xs, lo, hi);
    }
  }

  /** Humidity and pressure are rounded means and wind speed the mean with
      one decimal, so bounds [lo, hi] that every member respects carry over
      (rounded), e.g. [0, 100] for humidity. */
  lemma SummaryMeans(d: int, ms: seq<Hourly>, lo: real, hi: real)
    requires |ms| > 0
    ensures var s := SummaryOf(d, ms);
            && s.humidity == s.humidity.Floor as real
            && s.pressure == s.pressure.Floor as real
            && (s.windSpeed * 10.0).Floor as real == s.windSpeed * 10.0
            && ((forall i :: 0 <= i < |ms| ==> lo <= ms[i].humidity <= hi) ==>
                  Round(lo) as real <= s.humidity <= Round(hi) as real)
            && ((forall i :: 0 <= i < |ms| ==> lo <= ms[i].pressure <= hi) ==>
                  Round(lo) as real <= s.pressure <= Round(hi) as real)
            && ((forall i :: 0 <= i < |ms| ==> lo <= ms[i].windSpeed <= hi) ==>
                  lo - 0.05 < s.windSpeed <= hi + 0.05)
  {
    var s := SummaryOf(d, ms);
    assert s.humidity == Round(Mean(Humidities(ms))) as real;
    assert s.pressure == Round(Mean(Pressures(ms))) as real;
    assert s.windSpeed == RoundTenth(Mean(WindSpeeds(ms)));
    HumidityMeanWithin(ms, lo, hi);
    PressureMeanWithin(ms, lo, hi);
    WindSpeedMeanWithin(ms, lo, hi);
  }

  /** The representative condition is that of the first record whose
      category is the most common one; that category has the highest count,
      and every category first seen after it has a strictly lower count
      (so among tied categories the one first seen latest wins). */
  lemma RepresentativeCondition(d: int, ms: seq<Hourly>) returns (j: nat)
    requires |ms| > 0
    ensures var cats := Categories(ms);
            var c := SummaryOf(d, ms).weather.main;
            && j < |ms| && SummaryOf(d, ms).weather == ms[j].weather && c in cats
            && (forall k :: 0 <= k < j ==> ms[k].weather.main != c)
            && (forall e :: e in cats ==> Count(ms, e) <= Count(ms, c))
            && (forall e :: e in cats && FirstIndexOf(ms, c).value < FirstIndexOf(ms, e).value ==>
                  Count(ms, e) < Count(ms, c))
  {
    var cats := Categories(ms);
    var counts := CountMap(ms);
    assert ms[0].weather.main in cats;
    var mc := MostCommon(cats, counts);
    var w := MostCommonIsLastMaximal(cats, counts);
    j := FirstIndexOf(ms, mc).value;
    assert SummaryOf(d, ms).weather == ms[j].weather;
    forall e | e in cats && FirstIndexOf(ms, mc).value < FirstIndexOf(ms, e).value
      ensures Count(ms, e) < Count(ms, mc)
    {
      var i :| 0 <= i < |cats| && cats[i] == e;
      if i < w {
        CategoriesInFirstSeenOrder(ms, i, w);
      } else if i == w {
      }
    }
    forall e | e in cats
      ensures Count(ms, e) <= Count(ms, mc)
    {
      var i :| 0 <= i < |cats| && cats[i] == e;
    }
  }

  lemma CountSnoc(ms: seq<Hourly>, x: Hourly, c: string)
    ensures Count(ms + [x], c) == Count(ms, c) + (if x.weather.main == c then 1 else 0)
  {
    assert (ms + [x])[..|ms|] == ms;
  }

  lemma CategoriesSnoc(ms: seq<Hourly>, x: Hourly)
    ensures Categories(ms + [x]) ==
              if x.weather.main in Categories(ms) then Categories(ms) else Categories(ms) + [x.weather.main]
  {
    assert (ms + [x])[..|ms|] == ms;
  }

  /** One more record adds its category to the keys of `weatherCounts`. */
  lemma CountMapKeysSnoc(ms: seq<Hourly>, x: Hourly)
    ensures CountMap(ms + [x]).Keys == CountMap(ms).Keys + {x.weather.main}
  {
    CategoriesSnoc(ms, x);
  }

  /** One more record adds one to the count of its own category only. */
  lemma CountMapValueSnoc(ms: seq<Hourly>, x: Hourly, c: string)
    requires c in CountMap(ms + [x])
    ensures var key := x.weather.main;
            var m := CountMap(ms);
            CountMap(ms + [x])[c] == if c == key then (if key in m then m[key] else 0) + 1 else m[c]
  {
    CountSnoc(ms, x, c);
    CountMapKeysSnoc(ms, x);
  }

  /** The `weatherCounts` update for one more record. */
  lemma CountMapSnoc(ms: seq<Hourly>, x: Hourly)
    ensures var key := x.weather.main;
            var m := CountMap(ms);
            CountMap(ms + [x]) == m[key := (if key in m then m[key] else 0) + 1]
  {
    var s := ms + [x];
    var key := x.weather.main;
    var m := CountMap(ms);
    var m' := m[key := (if key in m then m[key] else 0) + 1];
    CountMapKeysSnoc(ms, x);
    forall c | c in m'
      ensures CountMap(s)[c] == m'[c]
    {
      CountMapValueSnoc(ms, x, c);
    }
    MapsEqual(CountMap(s), m');
  }

  lemma CountStep(ms: seq<Hourly>, i: nat)
    requires i < |ms|
    ensures var key := ms[i].weather.main;
            var m := CountMap(ms[..i]);
            && Categories(ms[..i + 1]) ==
                 (if key in m then Categories(ms[..i]) else Categories(ms[..i]) + [key])
            && CountMap(ms[..i + 1]) == m[key := (if key in m then m[key] else 0) + 1]
  {
    CountMapSnoc(ms[..i], ms[i]);
    CategoriesSnoc(ms[..i], ms[i]);
    TakeOneMore(ms, i);
  }

  /** `keys` and `counts` are the key order and the contents of
      `weatherCounts` after the records `ms`. */
  ghost predicate Tallied(ms: seq<Hourly>, keys: seq<string>, counts: map<string, nat>)
  {
    keys == Categories(ms) && counts == CountMap(ms)
  }

  /** One turn of the `weatherCounts` loop, from the state after `i`
      records to the state after `i + 1`. */
  lemma CountTurn(ms: seq<Hourly>, i: nat, keys: seq<string>, counts: map<string, nat>)
    requires i < |ms|
    requires Tallied(ms[..i], keys, counts)
    ensures var key := ms[i].weather.main;
            Tallied(ms[..i + 1],
                    if key in counts then keys else keys + [key],
                    counts[key := (if key in counts then counts[key] else 0) + 1])
  {
    CountStep(ms, i);
  }

  /** The `weatherCounts` reduce as a loop: the categories in the order
      their keys enter the object, and each one's count. */
  method CountWeather(dayForecasts: seq<Hourly>) returns (keys: seq<string>, weatherCounts: map<string, nat>)
    ensures keys == Categories(dayForecasts)
    ensures weatherCounts == CountMap(dayForecasts)
  {
    keys := [];
    weatherCounts := map[];
    var i := 0;
    while i < |dayForecasts|
      invariant 0 <= i <= |dayForecasts|
      invariant Tallied(dayForecasts[..i], keys, weatherCounts)
    {
      var key := dayForecasts[i].weather.main;
      CountTurn(dayForecasts, i, keys, weatherCounts);
      // a category not yet counted becomes the last key, with count 1
      keys := if key in weatherCounts then keys else keys + [key];
      weatherCounts := weatherCounts[key := (if key in weatherCounts then weatherCounts[key] else 0) + 1];
      i := i + 1;
    }
    assert dayForecasts[..i] == dayForecasts;
  }

  /** The summary callback of the `map`. */
  method Summarize(day: int, dayForecasts: seq<Hourly>) returns (summary: DailyForecast)
    requires |dayForecasts| > 0
    ensures summary == SummaryOf(day, dayForecasts)
  {
    var keys, weatherCounts := CountWeather(dayForecasts);
    assert dayForecasts[0].weather.main in keys;
    var mostCommonWeather := MostCommon(keys, weatherCounts);
    summary := DailyForecast(
      DayStart(day),
      MinOf(Temperatures(dayForecasts)),
      MaxOf(Temperatures(dayForecasts)),
      Round(Mean(Humidities(dayForecasts))) as real,
      Round(Mean(Pressures(dayForecasts))) as real,
      RoundTenth(Mean(WindSpeeds(dayForecasts))),
      MaxOf(PrecipitationProbabilities(dayForecasts)),
      RepresentativeWeather(dayForecasts, mostCommonWeather),
      dayForecasts);
  }

  // ---------------------------------------------------------------------
  // The summaries, their order, and `groupForecastsByDay` as a whole.
  // ---------------------------------------------------------------------

  /** The `map` callback for day `d`: the summary of its bucket. */
  function DaySummary(fs: seq<Hourly>, d: int): DailyForecast
    requires d in DaysInOrder(fs)
  {
    DayHasMembers(fs, d);
    SummaryOf(d, Members(fs, d))
  }

  /** A day's summary is that of its non-empty bucket. */
  lemma DaySummaryOfBucket(fs: seq<Hourly>, d: int)
    requires d in DaysInOrder(fs)
    ensures |Members(fs, d)| > 0
    ensures DaySummary(fs, d) == SummaryOf(d, Members(fs, d))
  {
    DayHasMembers(fs, d);
  }

  /** `Object.entries(groupedByDay).map(...)` for the days `ks`. */
  function SummariesFor(fs: seq<Hourly>, ks: seq<int>): (r: seq<DailyForecast>)
    requires forall i :: 0 <= i < |ks| ==> ks[i] in DaysInOrder(fs)
    ensures |r| == |ks|
  {
    seq(|ks|, i requires 0 <= i < |ks| => DaySummary(fs, ks[i]))
  }

  /** The `i`-th entry is the summary of the `i`-th day's bucket. */
  lemma SummaryAt(fs: seq<Hourly>, ks: seq<int>, i: nat)
    requires forall i :: 0 <= i < |ks| ==> ks[i] in DaysInOrder(fs)
    requires i < |ks|
    ensures |Members(fs, ks[i])| > 0
    ensures SummariesFor(fs, ks)[i] == SummaryOf(ks[i], Members(fs, ks[i]))
  {
    DayHasMembers(fs, ks[i]);
  }

  /** A day on which some record falls has a non-empty bucket. */
  lemma DayHasMembers(fs: seq<Hourly>, d: int)
    requires d in DaysInOrder(fs)
    ensures |Members(fs, d)| > 0
  {
    var j :| 0 <= j < |fs| && DayOf(fs[j].time) == d;
    assert fs[j] in Members(fs, d);
  }

  /** `sort((a, b) => a.date - b.date)`, stable: insert `x` before the
      first summary with a later or equal date. */
  function InsertByDate(x: DailyForecast, s: seq<DailyForecast>): (r: seq<DailyForecast>)
    ensures |r| == |s| + 1
    ensures forall y :: y in r <==> y == x || y in s
  {
    if s == [] || x.date <= s[0].date then [x] + s
    else [s[0]] + InsertByDate(x, s[1..])
  }

  function SortByDate(s: seq<DailyForecast>): (r: seq<DailyForecast>)
    ensures |r| == |s|
    ensures forall y :: y in r <==> y in s
  {
    if s == [] then [] else InsertByDate(s[0], SortByDate(s[1..]))
  }

  ghost predicate DatesIncreasing(s: seq<DailyForecast>)
  {
    forall i, j :: 0 <= i < j < |s| ==> s[i].date < s[j].date
  }

  ghost predicate DatesDistinct(s: seq<DailyForecast>)
  {
    forall i, j :: 0 <= i < j < |s| ==> s[i].date != s[j].date
  }

  lemma {:induction false} InsertByDateIncreasing(x: DailyForecast, s: seq<DailyForecast>)
    requires DatesIncreasing(s)
    requires forall i :: 0 <= i < |s| ==> s[i].date != x.date
    ensures DatesIncreasing(InsertByDate(x, s))
  {
    if s != [] && x.date > s[0].date {
      var t := s[1..];
      assert forall i :: 0 <= i < |t| ==> t[i] == s[i + 1];
      InsertByDateIncreasing(x, t);
      var r := InsertByDate(x, t);
      forall i | 0 <= i < |r|
        ensures s[0].date < r[i].date
      {
        assert r[i] in r;
      }
    }
  }

  /** Sorting summaries with pairwise distinct dates orders them strictly
      by date. */
  lemma {:induction false} SortByDateIncreasing(s: seq<DailyForecast>)
    requires DatesDistinct(s)
    ensures DatesIncreasing(SortByDate(s))
  {
    if s != [] {
      var t := s[1..];
      assert forall i :: 0 <= i < |t| ==> t[i] == s[i + 1];
      SortByDateIncreasing(t);
      var r := SortByDate(t);
      forall i | 0 <= i < |r|
        ensures r[i].date != s[0].date
      {
        assert r[i] in t;
      }
      InsertByDateIncreasing(s[0], r);
    }
  }

  /** Total number of member records over a list of summaries. */
  function MemberCount(s: seq<DailyForecast>): nat
  {
    if s == [] then 0 else MemberCount(s[..|s| - 1]) + |s[|s| - 1].forecasts|
  }

  lemma {:induction false} MemberCountConcat(a: seq<DailyForecast>, b: seq<DailyForecast>)
    ensures MemberCount(a + b) == MemberCount(a) + MemberCount(b)
  {
    if b == [] {
      assert a + b == a;
    } else {
      MemberCountConcat(a, b[..|b| - 1]);
      assert (a + b)[..|a + b| - 1] == a + b[..|b| - 1];
      assert (a + b)[|a + b| - 1] == b[|b| - 1];
    }
  }

  lemma {:induction false} SortByDateMemberCount(s: seq<DailyForecast>)
    ensures MemberCount(SortByDate(s)) == MemberCount(s)
  {
    if s != [] {
      SortByDateMemberCount(s[1..]);
      InsertMemberCount(s[0], SortByDate(s[1..]));
      MemberCountConcat([s[0]], s[1..]);
      assert [s[0]] + s[1..] == s;
    }
  }

  lemma {:induction false} InsertMemberCount(x: DailyForecast, s: seq<DailyForecast>)
    ensures MemberCount(InsertByDate(x, s)) == |x.forecasts| + MemberCount(s)
  {
    MemberCountConcat([x], s);
    assert MemberCount([x]) == MemberCount([]) + |x.forecasts|;
    if s != [] && x.date > s[0].date {
      InsertMemberCount(x, s[1..]);
      MemberCountConcat([s[0]], InsertByDate(x, s[1..]));
      MemberCountConcat([s[0]], s[1..]);
      assert MemberCount([s[0]]) == MemberCount([]) + |s[0].forecasts|;
      assert [s[0]] + s[1..] == s;
    }
  }

  /** Occurrences of `d` in `ds`. */
  function Occurrences(ds: seq<int>, d: int): nat
  {
    if ds == [] then 0 else Occurrences(ds[..|ds| - 1], d) + (if ds[|ds| - 1] == d then 1 else 0)
  }

  lemma {:induction false} OccurrencesOfDistinct(ds: seq<int>, d: int)
    requires forall i, j :: 0 <= i < j < |ds| ==> ds[i] != ds[j]
    ensures Occurrences(ds, d) == if d in ds then 1 else 0
  {
    if ds != [] {
      var p := ds[..|ds| - 1];
      OccurrencesOfDistinct(p, d);
      assert forall y :: y in ds <==> y in p || y == ds[|ds| - 1];
    }
  }

  /** Total size of the buckets of the days `ds`. */
  function BucketTotal(fs: seq<Hourly>, ds: seq<int>): nat
  {
    if ds == [] then 0 else BucketTotal(fs, ds[..|ds| - 1]) + |Members(fs, ds[|ds| - 1])|
  }

  lemma {:induction false} BucketTotalSnoc(fs: seq<Hourly>, x: Hourly, ds: seq<int>)
    ensures BucketTotal(fs + [x], ds) == BucketTotal(fs, ds) + Occurrences(ds, DayOf(x.time))
  {
    if ds != [] {
      BucketTotalSnoc(fs, x, ds[..|ds| - 1]);
      MembersSnoc(fs, x, ds[|ds| - 1]);
    }
  }

  /** Buckets over distinct days covering every record add up to the
      number of records. */
  lemma {:induction false} BucketsPartition(fs: seq<Hourly>, ds: seq<int>)
    requires forall i, j :: 0 <= i < j < |ds| ==> ds[i] != ds[j]
    requires forall k :: 0 <= k < |fs| ==> DayOf(fs[k].time) in ds
    ensures BucketTotal(fs, ds) == |fs|
  {
    if fs == [] {
      EmptyBuckets(ds);
    } else {
      var p := fs[..|fs| - 1];
      var x := fs[|fs| - 1];
      assert forall k :: 0 <= k < |p| ==> p[k] == fs[k];
      BucketsPartition(p, ds);
      assert p + [x] == fs;
      BucketTotalSnoc(p, x, ds);
      OccurrencesOfDistinct(ds, DayOf(x.time));
    }
  }

  lemma {:induction false} EmptyBuckets(ds: seq<int>)
    ensures BucketTotal([], ds) == 0
  {
    if ds != [] {
      EmptyBuckets(ds[..|ds| - 1]);
      assert Members([], ds[|ds| - 1]) == [];
    }
  }

  /** Summaries whose buckets have the sizes of the buckets of `ks` hold
      `BucketTotal(fs, ks)` records between them. */
  lemma {:induction false} MemberCountOfBuckets(fs: seq<Hourly>, ks: seq<int>, s: seq<DailyForecast>)
    requires |s| == |ks|
    requires forall m :: 0 <= m < |s| ==> |s[m].forecasts| == |Members(fs, ks[m])|
    ensures MemberCount(s) == BucketTotal(fs, ks)
  {
    if s != [] {
      var n := |s| - 1;
      assert forall m :: 0 <= m < n ==> s[..n][m] == s[m] && ks[..n][m] == ks[m];
      MemberCountOfBuckets(fs, ks[..n], s[..n]);
    }
  }

  lemma SummariesMemberCount(fs: seq<Hourly>, ks: seq<int>)
    requires forall i :: 0 <= i < |ks| ==> ks[i] in DaysInOrder(fs)
    ensures MemberCount(SummariesFor(fs, ks)) == BucketTotal(fs, ks)
  {
    var s := SummariesFor(fs, ks);
    forall m | 0 <= m < |s|
      ensures |s[m].forecasts| == |Members(fs, ks[m])|
    {
      SummaryAt(fs, ks, m);
    }
    MemberCountOfBuckets(fs, ks, s);
  }

  /** `groupForecastsByDay` as a value: one summary per day of first
      appearance, then sorted by date. */
  function GroupByDay(fs: seq<Hourly>): seq<DailyForecast>
  {
    SortByDate(SummariesFor(fs, DaysInOrder(fs)))
  }

  lemma SummariesDistinctDates(fs: seq<Hourly>, ks: seq<int>)
    requires forall i :: 0 <= i < |ks| ==> ks[i] in DaysInOrder(fs)
    requires forall i, j :: 0 <= i < j < |ks| ==> ks[i] != ks[j]
    ensures DatesDistinct(SummariesFor(fs, ks))
  {
    var e := SummariesFor(fs, ks);
    forall i, j | 0 <= i < j < |e|
      ensures e[i].date != e[j].date
    {
      SummaryAt(fs, ks, i);
      SummaryAt(fs, ks, j);
      assert DayOf(e[i].date) == ks[i] && DayOf(e[j].date) == ks[j];
    }
  }

  lemma SummariesAreBuckets(fs: seq<Hourly>, ks: seq<int>, s: DailyForecast)
    requires forall i :: 0 <= i < |ks| ==> ks[i] in DaysInOrder(fs)
    requires s in SortByDate(SummariesFor(fs, ks))
    ensures s.forecasts != [] && s.forecasts == Members(fs, DayOf(s.date))
    ensures s.date == DayStart(DayOf(s.date)) && s == SummaryOf(DayOf(s.date), s.forecasts)
  {
    var i := SortedFrom(SummariesFor(fs, ks), s);
    SummaryIsBucket(fs, ks, i);
  }

  /** Every sorted summary comes from some position of the input. */
  lemma SortedFrom(e: seq<DailyForecast>, s: DailyForecast) returns (i: nat)
    requires s in SortByDate(e)
    ensures i < |e| && e[i] == s
  {
    assert s in e;
    i :| 0 <= i < |e| && e[i] == s;
  }

  /** The `i`-th summary, read back through its date. */
  lemma SummaryIsBucket(fs: seq<Hourly>, ks: seq<int>, i: nat)
    requires forall i :: 0 <= i < |ks| ==> ks[i] in DaysInOrder(fs)
    requires i < |ks|
    ensures var s := SummariesFor(fs, ks)[i];
            && s.forecasts != [] && s.forecasts == Members(fs, DayOf(s.date))
            && s.date == DayStart(DayOf(s.date)) && s == SummaryOf(DayOf(s.date), s.forecasts)
  {
    SummaryAt(fs, ks, i);
    var ms := Members(fs, ks[i]);
    var s := SummariesFor(fs, ks)[i];
    assert s == SummaryOf(ks[i], ms);
    assert DayOf(s.date) == ks[i] && s.forecasts == ms;
  }

  lemma SummariesCoverDays(fs: seq<Hourly>, k: nat)
    requires k < |fs|
    ensures exists s :: s in GroupByDay(fs) && s.date == DayStart(DayOf(fs[k].time))
  {
    var ks := DaysInOrder(fs);
    var e := SummariesFor(fs, ks);
    assert DayOf(fs[k].time) in ks;
    var i :| 0 <= i < |ks| && ks[i] == DayOf(fs[k].time);
    SummaryAt(fs, ks, i);
    assert e[i] in GroupByDay(fs);
  }

  /** The grouping: summaries are strictly increasing by date (so one per
      calendar day); each has a non-empty bucket holding exactly that day's
      records in input order and is that bucket's summary; every record's
      day has a summary; and the bucket sizes add up to the input length. */
  lemma GroupByDayProperties(fs: seq<Hourly>)
    ensures DatesIncreasing(GroupByDay(fs))
    ensures forall s :: s in GroupByDay(fs) ==>
              && s.forecasts != []
              && s.forecasts == Members(fs, DayOf(s.date))
              && s.date == DayStart(DayOf(s.date))
              && s == SummaryOf(DayOf(s.date), s.forecasts)
    ensures forall k :: 0 <= k < |fs| ==>
              exists s :: s in GroupByDay(fs) && s.date == DayStart(DayOf(fs[k].time))
    ensures MemberCount(GroupByDay(fs)) == |fs|
  {
    var ks := DaysInOrder(fs);
    var e := SummariesFor(fs, ks);
    SummariesDistinctDates(fs, ks);
    SortByDateIncreasing(e);
    forall s | s in GroupByDay(fs)
      ensures s.forecasts != [] && s.forecasts == Members(fs, DayOf(s.date))
      ensures s.date == DayStart(DayOf(s.date)) && s == SummaryOf(DayOf(s.date), s.forecasts)
    {
      SummariesAreBuckets(fs, ks, s);
    }
    forall k | 0 <= k < |fs|
      ensures exists s :: s in GroupByDay(fs) && s.date == DayStart(DayOf(fs[k].time))
    {
      SummariesCoverDays(fs, k);
    }
    SortByDateMemberCount(e);
    SummariesMemberCount(fs, ks);
    BucketsPartition(fs, ks);
  }

  lemma DaysInOrderSnoc(p: seq<Hourly>, x: Hourly)
    ensures DaysInOrder(p + [x]) ==
              if DayOf(x.time) in DaysInOrder(p) then DaysInOrder(p) else DaysInOrder(p) + [DayOf(x.time)]
  {
    assert (p + [x])[..|p|] == p;
  }

  /** The state of the bucketing `reduce` after the records `p`: `keys`
      holds the days in the order the object gained them, and the bucket
      of each day is that day's records. */
  ghost predicate Bucketed(p: seq<Hourly>, keys: seq<int>, groups: map<int, seq<Hourly>>)
  {
    && keys == DaysInOrder(p)
    && (forall d :: d in groups <==> d in keys)
    && (forall d :: d in groups ==> groups[d] == Members(p, d))
  }

  /** One step of the bucketing `reduce`: appending record `x` to its
      day's bucket (created empty when missing, its day then becoming the
      last key) keeps the buckets equal to the day filters of the records
      seen so far. */
  lemma BucketStep(p: seq<Hourly>, x: Hourly, keys: seq<int>, groups: map<int, seq<Hourly>>)
    requires Bucketed(p, keys, groups)
    ensures var k := DayOf(x.time);
            Bucketed(p + [x],
                     if k in groups then keys else keys + [k],
                     groups[k := (if k in groups then groups[k] else []) + [x]])
  {
    var k := DayOf(x.time);
    var g := groups[k := (if k in groups then groups[k] else []) + [x]];
    DaysInOrderSnoc(p, x);
    if k !in groups {
      NoMembersOnOtherDays(p, k);
    }
    forall d | d in g
      ensures g[d] == Members(p + [x], d)
    {
      MembersSnoc(p, x, d);
    }
  }

  /** A day on which no record falls has an empty bucket. */
  lemma NoMembersOnOtherDays(fs: seq<Hourly>, d: int)
    requires d !in DaysInOrder(fs)
    ensures Members(fs, d) == []
  {
    forall k | 0 <= k < |fs|
      ensures DayOf(fs[k].time) != d
    {
    }
    assert forall f :: f in fs ==> DayOf(f.time) != d;
  }

  /** Once every record is bucketed, the `j`-th key has a non-empty bucket
      holding that day's records. */
  lemma BucketAt(fs: seq<Hourly>, keys: seq<int>, groups: map<int, seq<Hourly>>, j: nat)
    requires Bucketed(fs, keys, groups)
    requires j < |keys|
    ensures keys[j] in groups && groups[keys[j]] == Members(fs, keys[j])
    ensures |groups[keys[j]]| > 0
  {
    DayHasMembers(fs, keys[j]);
  }

  lemma {:induction false} DaysOfOneDay(fs: seq<Hourly>, d: int)
    requires |fs| > 0
    requires forall k :: 0 <= k < |fs| ==> DayOf(fs[k].time) == d
    ensures DaysInOrder(fs) == [d]
  {
    if |fs| > 1 {
      var p := fs[..|fs| - 1];
      assert forall k :: 0 <= k < |p| ==> p[k] == fs[k];
      DaysOfOneDay(p, d);
    }
  }

  /** Records that all fall on one day `d` give a single summary, of all
      of them. */
  lemma GroupSingleDay(fs: seq<Hourly>, d: int)
    requires |fs| > 0
    requires forall k :: 0 <= k < |fs| ==> DayOf(fs[k].time) == d
    ensures GroupByDay(fs) == [SummaryOf(d, fs)]
  {
    DaysOfOneDay(fs, d);
    MembersOfOneDay(fs, d);
    SummariesOfOneDay(fs, d);
    SortOne(SummaryOf(d, fs));
  }

  /** A day whose bucket is every record maps to the summary of them all. */
  lemma SummariesOfOneDay(fs: seq<Hourly>, d: int)
    requires d in DaysInOrder(fs)
    requires Members(fs, d) == fs
    ensures SummariesFor(fs, [d]) == [SummaryOf(d, fs)]
  {
    SummariesForOne(fs, d);
    DaySummaryOfBucket(fs, d);
  }

  /** Mapping a single day gives that day's summary alone. */
  lemma SummariesForOne(fs: seq<Hourly>, d: int)
    requires d in DaysInOrder(fs)
    ensures SummariesFor(fs, [d]) == [DaySummary(fs, d)]
  {
    assert SummariesFor(fs, [d])[0] == DaySummary(fs, d);
  }

  lemma SortOne(x: DailyForecast)
    ensures SortByDate([x]) == [x]
  {
    assert [x][1..] == [];
  }

  /** When every record falls on day `d`, its bucket is all of them. */
  lemma MembersOfOneDay(fs: seq<Hourly>, d: int)
    requires forall k :: 0 <= k < |fs| ==> DayOf(fs[k].time) == d
    ensures Members(fs, d) == fs
  {
    FilterKeepsAll(fs, (f: Hourly) => DayOf(f.time) == d);
  }

  /** The bucketing `reduce` of `groupForecastsByDay`, as a loop over a
      map plus the order in which it gains keys. */
  method BucketByDay(forecasts: seq<Hourly>) returns (keys: seq<int>, groupedByDay: map<int, seq<Hourly>>)
    ensures Bucketed(forecasts, keys, groupedByDay)
  {
    keys := [];
    groupedByDay := map[];
    var i := 0;
    while i < |forecasts|
      invariant 0 <= i <= |forecasts|
      invariant Bucketed(forecasts[..i], keys, groupedByDay)
    {
      var forecast := forecasts[i];
      var dateKey := DayOf(forecast.time);
      TakeOneMore(forecasts, i);
      BucketStep(forecasts[..i], forecast, keys, groupedByDay);
      // a missing bucket starts empty, and its day becomes the last key
      var bucket := if dateKey in groupedByDay then groupedByDay[dateKey] else [];
      keys := if dateKey in groupedByDay then keys else keys + [dateKey];
      groupedByDay := groupedByDay[dateKey := bucket + [forecast]];
      i := i + 1;
    }
    assert forecasts[..i] == forecasts;
  }

  /** The summary `map` of `groupForecastsByDay` over the buckets, in key
      order. */
  method SummarizeDays(forecasts: seq<Hourly>, keys: seq<int>, groupedByDay: map<int, seq<Hourly>>)
    returns (entries: seq<DailyForecast>)
    requires keys == DaysInOrder(forecasts)
    requires forall j :: 0 <= j < |keys| ==> keys[j] in groupedByDay && groupedByDay[keys[j]] == Members(forecasts, keys[j])
    ensures entries == SummariesFor(forecasts, keys)
  {
    ghost var all := SummariesFor(forecasts, keys);
    entries := [];
    var j := 0;
    while j < |keys|
      invariant 0 <= j <= |keys|
      invariant entries == all[..j]
    {
      var dateKey := keys[j];
      DaySummaryOfBucket(forecasts, dateKey);
      TakeOneMore(all, j);
      var summary := Summarize(dateKey, groupedByDay[dateKey]);
      assert summary == all[j];
      entries := entries + [summary];
      j := j + 1;
    }
  }

  /** `groupForecastsByDay`: bucket, summarise each bucket, sort by date. */
  method GroupForecastsByDay(forecasts: seq<Hourly>) returns (days: seq<DailyForecast>)
    ensures days == GroupByDay(forecasts)
  {
    var keys, groupedByDay := BucketByDay(forecasts);
    forall j | 0 <= j < |keys|
      ensures keys[j] in groupedByDay && groupedByDay[keys[j]] == Members(forecasts, keys[j])
    {
      BucketAt(forecasts, keys, groupedByDay, j);
    }
    var entries := SummarizeDays(forecasts, keys, groupedByDay);
    days := SortByDate(entries);
  }
}
