/** The detail screen (src/screens/DetailScreen.tsx): the day-or-night
    background of a city and the five-day forecast it loads. */
module DetailScreen {
  import opened Wrappers
  import opened WeatherService
  import opened Theme

  // ---------------------------------------------------------------------------
  // The daily forecast
  // ---------------------------------------------------------------------------

  /** The 3-hourly entries of `list` whose position in the whole forecast,
      counting `list[0]` as position `index`, is 4 modulo 8 (the entry near
      noon of each day). With `index == 0` this is the `filter` of
      loadForecast. */
  function NoonEntries<T>(list: seq<T>, index: nat): (r: seq<T>)
    ensures |r| <= |list|
  {
    if list == [] then []
    else if index % 8 == 4 then [list[0]] + NoonEntries(list[1..], index + 1)
    else NoonEntries(list[1..], index + 1)
  }

  /** The position in `list` of the first entry NoonEntries keeps. */
  function FirstNoon(index: nat): (i: nat)
    ensures i < 8 && (index + i) % 8 == 4
  {
    (12 - index % 8) % 8
  }

  /** The entries kept are every eighth entry from the first noon entry
      on: how many there are... */
  lemma {:induction false} NoonEntriesCount<T>(list: seq<T>, index: nat)
    ensures var i0 := FirstNoon(index);
            |NoonEntries(list, index)| == if |list| > i0 then (|list| - i0 + 7) / 8 else 0
  {
    if list != [] {
      NoonEntriesCount(list[1..], index + 1);
      FirstNoonStep(index);
      if index % 8 == 4 {
        CountStep(|list|);
      }
    }
  }

  /** How the first noon position moves when the list loses its head. */
  lemma FirstNoonStep(index: nat)
    ensures index % 8 == 4 ==> FirstNoon(index) == 0 && FirstNoon(index + 1) == 7
    ensures index % 8 != 4 ==> FirstNoon(index) >= 1 && FirstNoon(index + 1) == FirstNoon(index) - 1
  {
  }

  lemma CountStep(n: nat)
    requires n >= 1
    ensures (n + 7) / 8 == 1 + (if n - 1 > 7 then (n - 1) / 8 else 0)
  {
  }

  /** ...and which entry each one is. */
  lemma {:induction false} NoonEntriesAt<T>(list: seq<T>, index: nat)
    ensures var i0 := FirstNoon(index);
            var r := NoonEntries(list, index);
            forall k :: 0 <= k < |r| ==> i0 + 8 * k < |list| && r[k] == list[i0 + 8 * k]
  {
    if list != [] {
      var tail := list[1..];
      var i0 := FirstNoon(index);
      var r := NoonEntries(list, index);
      var rest := NoonEntries(tail, index + 1);
      NoonEntriesAt(tail, index + 1);
      FirstNoonStep(index);
      if index % 8 == 4 {
        forall k | 0 <= k < |r| ensures i0 + 8 * k < |list| && r[k] == list[i0 + 8 * k] {
          if k > 0 {
            assert r[k] == rest[k - 1] == tail[7 + 8 * (k - 1)];
          }
        }
      } else {
        forall k | 0 <= k < |r| ensures i0 + 8 * k < |list| && r[k] == list[i0 + 8 * k] {
          assert r[k] == tail[i0 - 1 + 8 * k];
        }
      }
    }
  }

  /** The forecast the screen shows: one entry per day, at most five days.
      Entry `k` is the list's entry `8k + 4`, so the order is kept, and every
      noon entry of the first five days is shown. */
  function DailyForecast<T>(list: seq<T>): (r: seq<T>)
    ensures |r| == Min(5, (|list| + 3) / 8)
    ensures forall k :: 0 <= k < |r| ==> 8 * k + 4 < |list| && r[k] == list[8 * k + 4]
    ensures forall i :: 0 <= i < |list| && i % 8 == 4 && i / 8 < 5 ==> i / 8 < |r| && r[i / 8] == list[i]
  {
    var noon := NoonEntries(list, 0);
    NoonEntriesCount(list, 0);
    NoonEntriesAt(list, 0);
    var r := noon[..Min(5, |noon|)];
    assert forall i :: 0 <= i < |list| && i % 8 == 4 ==> 8 * (i / 8) + 4 == i;
    r
  }

  function Min(a: int, b: int): int {
    if a <= b then a else b
  }

  // ---------------------------------------------------------------------------
  // Day or night
  // ---------------------------------------------------------------------------

  /** `Date.now() / 1000 < sunrise || Date.now() / 1000 > sunset`, with the
      clock reading `nowMs` in milliseconds and the division exact: night is
      a clock reading before the sunrise millisecond or after the sunset
      one. */
  function IsNightNow(nowMs: int, sunrise: int, sunset: int): (night: bool)
    ensures night <==> nowMs < sunrise * 1000 || nowMs > sunset * 1000
  {
    (nowMs as real) / 1000.0 < sunrise as real || (nowMs as real) / 1000.0 > sunset as real
  }

  /** The screen's test is the service's isNightTime on milliseconds: night
      is before sunrise or after sunset, sunrise and sunset themselves being
      day. */
  lemma NightAgreesWithService(nowMs: int, sunrise: int, sunset: int)
    ensures IsNightNow(nowMs, sunrise, sunset) == IsNightTime(nowMs, sunrise * 1000, sunset * 1000)
  {
  }

  /** On a whole second the screen's test is isNightTime on seconds. */
  lemma NightOnWholeSeconds(nowMs: int, sunrise: int, sunset: int)
    requires nowMs % 1000 == 0
    ensures IsNightNow(nowMs, sunrise, sunset) == IsNightTime(nowMs / 1000, sunrise, sunset)
  {
    NightAgreesWithService(nowMs, sunrise, sunset);
    assert nowMs == (nowMs / 1000) * 1000;
  }

  // ---------------------------------------------------------------------------
  // The screen state
  // ---------------------------------------------------------------------------

  /** The detail screen of one city: the route parameters and the forecast
      state. */
  class DetailScreen {
    const cityName: string
    const weatherData: WeatherData
    var forecast: seq<ForecastItem>
    var loadingForecast: bool

    /** The screen opens with no forecast and the spinner on; the snapshot
        must carry a condition, which the screen reads as `weather[0]`. */
    constructor(cityName: string, weatherData: WeatherData)
      requires |weatherData.weather| > 0
      ensures this.cityName == cityName && this.weatherData == weatherData
      ensures forecast == [] && loadingForecast
    {
      this.cityName := cityName;
      this.weatherData := weatherData;
      forecast := [];
      loadingForecast := true;
    }

    /** `isNight` at clock reading `nowMs`. */
    function IsNight(nowMs: int): (night: bool)
      ensures night == IsNightTime(nowMs, weatherData.sunrise * 1000, weatherData.sunset * 1000)
    {
      NightAgreesWithService(nowMs, weatherData.sunrise, weatherData.sunset);
      IsNightNow(nowMs, weatherData.sunrise, weatherData.sunset)
    }

    /** `gradientColors`: the night palette before sunrise and after sunset,
        otherwise the palette of the current condition. */
    function GradientColors(nowMs: int): (g: Palette)
      requires |weatherData.weather| > 0
      ensures g in Gradients
      ensures g == Night <==> IsNight(nowMs)
      ensures !IsNight(nowMs) ==> g == GetWeatherGradient(weatherData.weather[0].main)
    {
      GradientCases(weatherData.weather[0].main, IsNight(nowMs));
      GetWeatherGradient(weatherData.weather[0].main, IsNight(nowMs))
    }

    /** The end of loadForecast, once the result is in: a successful result
        with data replaces the forecast by its daily entries; the spinner
        stops either way. */
    method ApplyForecast(result: ApiResponse<ForecastData>)
      modifies this
      ensures !loadingForecast
      ensures result.success && result.data.Some? ==> forecast == DailyForecast(result.data.value.list)
      ensures !(result.success && result.data.Some?) ==> forecast == old(forecast)
    {
      if result.success && result.data.Some? {
        forecast := DailyForecast(result.data.value.list);
      }
      loadingForecast := false;
    }

    /** loadForecast: ask the service for the city's forecast and apply it. */
    method LoadForecast(fetch: string -> FetchOutcome<ForecastData>)
      modifies this
      ensures !loadingForecast
      ensures var r := GetForecastWeather(cityName, fetch);
              if r.success && r.data.Some? then forecast == DailyForecast(r.data.value.list)
              else forecast == old(forecast)
    {
      var result := GetForecastWeather(cityName, fetch);
      ApplyForecast(result);
    }
  }
}
