/** The horizon selector of `src/services/weatherApi.ts`
    (`getNext12HoursForecast`). The current time is a parameter. */
module Horizon {
  import opened ForecastTypes
  import opened Sequences

  const TWELVE_HOURS_MS: int := 12 * 60 * 60 * 1000

  /** The local "now": the current epoch time shifted by the location's
      offset (seconds). */
  function LocalNow(utcNow: int, timezoneOffset: int): int
  {
    utcNow + timezoneOffset * 1000
  }

  /** `forecasts.filter(f => f.time >= localNow && f.time <= next12Hours)`. */
  function GetNext12HoursForecast(forecasts: seq<Hourly>, timezoneOffset: int, utcNow: int): (r: seq<Hourly>)
    ensures forall f :: f in r <==>
              f in forecasts
              && LocalNow(utcNow, timezoneOffset) <= f.time <= LocalNow(utcNow, timezoneOffset) + TWELVE_HOURS_MS
  {
    var localNow := LocalNow(utcNow, timezoneOffset);
    var next12Hours := localNow + TWELVE_HOURS_MS;
    Filter(forecasts, (forecast: Hourly) => forecast.time >= localNow && forecast.time <= next12Hours)
  }

  /** The window is exactly the order-preserving subsequence of records
      whose time lies in [localNow, localNow + 12h], both ends included:
      `idx` lists the positions taken, increasing, and a position is taken
      iff its record is in the window. Time order carries over. */
  lemma Next12HoursSelection(forecasts: seq<Hourly>, timezoneOffset: int, utcNow: int)
    returns (idx: seq<nat>)
    ensures var r := GetNext12HoursForecast(forecasts, timezoneOffset, utcNow);
            && |idx| == |r|
            && (forall k :: 0 <= k < |idx| ==> idx[k] < |forecasts| && r[k] == forecasts[idx[k]])
            && (forall k, m :: 0 <= k < m < |idx| ==> idx[k] < idx[m])
            && (forall i :: 0 <= i < |forecasts| ==>
                  (i in idx <==> LocalNow(utcNow, timezoneOffset) <= forecasts[i].time
                                 <= LocalNow(utcNow, timezoneOffset) + TWELVE_HOURS_MS))
            && (TimesIncreasing(forecasts) ==> TimesIncreasing(r))
  {
    var localNow := LocalNow(utcNow, timezoneOffset);
    var next12Hours := localNow + TWELVE_HOURS_MS;
    var inWindow := (forecast: Hourly) => forecast.time >= localNow && forecast.time <= next12Hours;
    var r := Filter(forecasts, inWindow);
    assert r == GetNext12HoursForecast(forecasts, timezoneOffset, utcNow);
    idx := FilterPositions(forecasts, inWindow);
    forall i | 0 <= i < |forecasts|
      ensures i in idx <==> localNow <= forecasts[i].time <= next12Hours
    {
      assert inWindow(forecasts[i]) <==> localNow <= forecasts[i].time <= next12Hours;
    }
    if TimesIncreasing(forecasts) {
      SelectionIncreasing(forecasts, r, idx);
    }
  }

  /** Records taken at increasing positions of a time-ordered sequence are
      time-ordered. */
  lemma SelectionIncreasing(s: seq<Hourly>, r: seq<Hourly>, idx: seq<nat>)
    requires TimesIncreasing(s)
    requires |idx| == |r|
    requires forall k :: 0 <= k < |idx| ==> idx[k] < |s| && r[k] == s[idx[k]]
    requires forall k, m :: 0 <= k < m < |idx| ==> idx[k] < idx[m]
    ensures TimesIncreasing(r)
  {
    forall k, m | 0 <= k < m < |r|
      ensures r[k].time < r[m].time
    {
      assert r[k] == s[idx[k]] && r[m] == s[idx[m]] && idx[k] < idx[m];
    }
  }

  /** When every record lies in the window, the selection is the whole
      input. */
  lemma WholeInputInWindow(forecasts: seq<Hourly>, timezoneOffset: int, utcNow: int)
    requires forall i :: 0 <= i < |forecasts| ==>
               LocalNow(utcNow, timezoneOffset) <= forecasts[i].time <= LocalNow(utcNow, timezoneOffset) + TWELVE_HOURS_MS
    ensures GetNext12HoursForecast(forecasts, timezoneOffset, utcNow) == forecasts
  {
    var localNow := LocalNow(utcNow, timezoneOffset);
    var next12Hours := localNow + TWELVE_HOURS_MS;
    var inWindow := (forecast: Hourly) => forecast.time >= localNow && forecast.time <= next12Hours;
    assert forall i :: 0 <= i < |forecasts| ==> inWindow(forecasts[i]);
    FilterKeepsAll(forecasts, inWindow);
  }
}
