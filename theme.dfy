/** The colour theme (src/styles/theme.ts): the eight background gradients
    and the choice of gradient from a weather condition keyword. */
module Theme {
  import opened JsString

  /** A three-stop linear gradient, as `#RRGGBB` strings from top to bottom. */
  datatype Palette = Palette(top: string, middle: string, bottom: string)

  const Clear := Palette("#FF9F1C", "#FF6F00", "#9B2226")
  const Clouds := Palette("#5F0F40", "#310A31", "#1B0F1E")
  const Rain := Palette("#3A0F7D", "#240046", "#10002B")
  const Thunderstorm := Palette("#240046", "#3C096C", "#10002B")
  const Snow := Palette("#F8EDEB", "#EDEDE9", "#F8EDEB")
  const Mist := Palette("#6D597A", "#355070", "#6D597A")
  const Night := Palette("#0B090A", "#161A1D", "#2B2D42")
  const Default := Palette("#2B1D3A", "#3B2558", "#FF9F1C")

  /** The `gradients` table. */
  const Gradients: set<Palette> := {Clear, Clouds, Rain, Thunderstorm, Snow, Mist, Night, Default}

  /** The keywords that share the rain palette. */
  const RainConditions: set<string> := {"rain", "drizzle"}

  /** The keywords that share the mist palette: the OpenWeather "Atmosphere"
      group and the two wind extremes. */
  const MistConditions: set<string> := {
    "mist", "fog", "haze", "smoke", "dust", "sand", "ash", "squall", "tornado"
  }

  /** Every keyword with a palette of its own or shared. */
  const KnownConditions: set<string> :=
    {"clear", "clouds", "thunderstorm", "snow"} + RainConditions + MistConditions

  /** getWeatherGradient: night wins; otherwise the lower-cased keyword picks
      the palette and anything unknown falls back to the default. */
  function GetWeatherGradient(weatherMain: string, isNight: bool := false): (g: Palette)
    ensures isNight ==> g == Night
    ensures g in Gradients
  {
    if isNight then Night else ConditionGradient(ToLower(weatherMain))
  }

  /** The `switch` on the lower-cased keyword: always a palette of the
      table, never the night one. */
  function ConditionGradient(condition: string): (g: Palette)
    ensures g in Gradients && g != Night
  {
    if condition == "clear" then Clear
    else if condition == "clouds" then Clouds
    else if condition in RainConditions then Rain
    else if condition == "thunderstorm" then Thunderstorm
    else if condition == "snow" then Snow
    else if condition in MistConditions then Mist
    else Default
  }

  /** The table holds eight different palettes. */
  lemma EightPalettes()
    ensures |Gradients| == 8
  {
  }

  /** Which keywords select which palette, in both directions; the night
      palette appears only at night. */
  lemma GradientCases(weatherMain: string, isNight: bool)
    ensures var g := GetWeatherGradient(weatherMain, isNight);
            var c := ToLower(weatherMain);
            && (g == Night <==> isNight)
            && (g == Clear <==> !isNight && c == "clear")
            && (g == Clouds <==> !isNight && c == "clouds")
            && (g == Rain <==> !isNight && c in RainConditions)
            && (g == Thunderstorm <==> !isNight && c == "thunderstorm")
            && (g == Snow <==> !isNight && c == "snow")
            && (g == Mist <==> !isNight && c in MistConditions)
            && (g == Default <==> !isNight && c !in KnownConditions)
  {
    var c := ToLower(weatherMain);
    NamedConditions(c);
    SharedConditions(c);
  }

  /** The keywords with a palette of their own. */
  lemma NamedConditions(c: string)
    ensures ConditionGradient(c) != Night
    ensures ConditionGradient(c) == Clear <==> c == "clear"
    ensures ConditionGradient(c) == Clouds <==> c == "clouds"
    ensures ConditionGradient(c) == Thunderstorm <==> c == "thunderstorm"
    ensures ConditionGradient(c) == Snow <==> c == "snow"
  {
  }

  /** The shared palettes and the fallback. */
  lemma SharedConditions(c: string)
    ensures ConditionGradient(c) == Rain <==> c in RainConditions
    ensures ConditionGradient(c) == Mist <==> c in MistConditions
    ensures ConditionGradient(c) == Default <==> c !in KnownConditions
  {
  }

  /** Case does not matter: a keyword and its lower-case form get the same
      palette ("Rain" and "rain"). */
  lemma GradientIgnoresCase(weatherMain: string, isNight: bool)
    ensures GetWeatherGradient(ToLower(weatherMain), isNight) == GetWeatherGradient(weatherMain, isNight)
  {
    ToLowerIdempotent(weatherMain);
  }

  /** Without the night flag the day palette of the keyword is used. */
  lemma NightDefaultsToFalse(weatherMain: string)
    ensures GetWeatherGradient(weatherMain) == GetWeatherGradient(weatherMain, false)
    ensures GetWeatherGradient(weatherMain) != Night
  {
    GradientCases(weatherMain, false);
  }

  /** The empty keyword gets the default palette by day. */
  lemma EmptyKeywordIsDefault()
    ensures GetWeatherGradient("") == Default
  {
    assert ToLower("") == "";
  }
}
