# Weather app core in Dafny

A model of the logic of a React Native weather app that shows OpenWeather
data for Vietnamese and foreign cities. It covers the following parts:

- **The weather service** (`WeatherService`).
  - `normalizeCityName` looks a city name up in the `CITY_MAPPINGS` alias
    table. It tries the lower-cased, trimmed name first and then the same name
    with its diacritics removed. If both lookups miss, it returns the name as
    typed.
  - `removeVietnameseDiacritics`: NFD, then the combining marks are dropped
    and `đ`/`Đ` are replaced.
  - `getCurrentWeather` and `getForecastWeather` turn a fetch outcome into
    `{ success, data?, error? }`.
  - `getWeatherIconUrl` and `isNightTime`.
- **The theme** (`Theme`): the eight background gradients, and
  `getWeatherGradient`, which picks one from a condition keyword and the
  night flag.
- **The home screen** (`HomeScreen`), with its state held in a class:
  - the saved-city list with its add-if-new and delete operations;
  - the delete confirmation;
  - the search, which fills the list or raises the error banner, and the
    classification of the error text into network, not-found and general
    errors.
- **The detail screen** (`DetailScreen`):
  - the day-or-night test against sunrise and sunset;
  - the background it chooses;
  - the selection of one forecast entry per day (`index % 8 === 4`, at most
    five);
  - the `forecast` and `loadingForecast` updates.
- **The search box** (`SearchInput`): the typed query, the focus flag, and
  the submission, which forwards the trimmed query only when it is not blank.

Two supporting modules model the parts of the JavaScript runtime this logic
depends on:

- `JsString`: `String.prototype.trim`, `toLowerCase` and `includes`.
- `Nfd`: `normalize("NFD")` on the letters of the Vietnamese alphabet.

`Wrappers` holds the `Option` type.

Side effects are parameters of the model:

- The network request is a function `string -> FetchOutcome<T>`, applied to
  the normalised city name. A `FetchOutcome` is either a rejection with a
  JavaScript error, or a status code together with a body that either parsed
  or threw.
- The clock is a number of milliseconds passed in.
- The answer of the delete dialog is a boolean.

## Model

| member | source | states |
|---|---|---|
| WeatherService.CanonicalNamesAreTheValues | src/services/weatherService.ts:21-47 | every alias maps to one of the eleven canonical names, and every canonical name is the value of some alias |
| WeatherService.KeysAreLowerAndTrimmed | src/services/weatherService.ts:21-47 | every alias is already lower case and trimmed, so each one can be matched |
| WeatherService.AliasValuesAreNonEmpty | src/services/weatherService.ts:21-47 | every alias maps to a non-empty name, so a hit on an own key is always truthy |
| WeatherService.RemoveVietnameseDiacritics | src/services/weatherService.ts:52-58 | the result contains no combining mark U+0300..U+036F and no `đ` or `Đ` |
| WeatherService.RemoveMarks | src/services/weatherService.ts:55 | dropping the marks keeps only characters that are not combining marks, each taken from the input |
| WeatherService.ReplaceAll | src/services/weatherService.ts:56-57 | `.replace(/đ/g, "d")` and `.replace(/Đ/g, "D")`: every `x` becomes `y`, so no `x` is left, and every other character stays in its place |
| WeatherService.RemoveDiacriticsOfAscii | src/services/weatherService.ts:52-58 | ASCII text comes back unchanged |
| WeatherService.StripOneLetter | src/services/weatherService.ts:52-58 | one precomposed Vietnamese letter inside ASCII text is replaced by its base letter, and nothing else changes |
| WeatherService.RemoveDiacriticsIdempotent | src/services/weatherService.ts:52-58 | stripping diacritics twice is the same as stripping them once |
| WeatherService.RemoveDiacriticsConcat | src/services/weatherService.ts:52-58 | stripping works piece by piece: the stripped form of a concatenation is the concatenation of the stripped pieces |
| WeatherService.NormalizeCityName | src/services/weatherService.ts:63-79 | a key hit gives the key's value; otherwise a hit on the stripped key gives that key's value; otherwise the input is returned exactly as typed |
| WeatherService.NormalizeRange | src/services/weatherService.ts:63-79 | the result is one of the table's names or the input itself |
| WeatherService.CanonicalNamesAreFixed | src/services/weatherService.ts:63-79 | each canonical name normalises to itself |
| WeatherService.NormalizeIdempotent | src/services/weatherService.ts:63-79 | normalising twice is normalising once |
| WeatherService.NormalizeTableKeys | src/services/weatherService.ts:64-69 | every alias, typed as it stands in the table, normalises to its value |
| WeatherService.StrippedAliasAgrees | src/services/weatherService.ts:21-47 | typing an alias without its diacritics reaches the same city whenever the stripped spelling is an alias too; StrippedKeyAgrees shows this is every accented alias but "sài gòn", whose stripped form "sai gon" is no alias |
| WeatherService.NormalizeUnknownAscii | src/services/weatherService.ts:71-78 | an ASCII name that is no alias is returned unchanged, blanks and case included |
| WeatherService.NormalizeUpperCaseAlias | src/services/weatherService.ts:64-68 | "  HÀ NỘI " normalises to "Hanoi": case and surrounding blanks do not matter |
| WeatherService.NormalizeMixedSpelling | src/services/weatherService.ts:71-75 | "Hà Noi" misses the table as typed and is found through its stripped form "ha noi" |
| WeatherService.NormalizeUnknownCity | src/services/weatherService.ts:77-78 | " London " is passed on exactly as typed |
| WeatherService.NormalizeCityNameAsWritten | src/services/weatherService.ts:63-79 | normalizeCityName with the source's truthiness tests on object-literal reads; PrototypeKeyFinding and AsWrittenAgreesOffPrototypeKeys state where it differs from NormalizeCityName and where it agrees |
| WeatherService.ObjectLiteralGet | src/services/weatherService.ts:67-68 | a property read on the object literal gives the own value for an alias, a truthy non-string for a name inherited from Object.prototype, and `undefined` otherwise |
| WeatherService.PrototypeKeyFinding | src/services/weatherService.ts:63-79 | as written, a name that lower-cases and trims to an Object.prototype member normalises to a truthy non-string; the corrected lookup returns the input |
| WeatherService.PrototypeNamesAreNoAliases | src/services/weatherService.ts:21-47 | no Object.prototype member name is an alias, and each of them is ASCII |
| WeatherService.ConstructorIsPrototypeKey | src/services/weatherService.ts:64 | "Constructor" lower-cases and trims to "constructor" |
| WeatherService.AsWrittenAgreesOffPrototypeKeys | src/services/weatherService.ts:63-79 | away from those names the as-written lookup and the corrected one give the same string |
| WeatherService.ToResponse | src/services/weatherService.ts:92-119 | success exactly when the response is ok and the body parsed, and then no error text; data exactly when it succeeded with an object body, and then the body is the data. Otherwise: 404 gives the not-found text; any other error status gives the body's non-empty message or the fallback; a TypeError mentioning "Network" gives the no-connection text; any other exception, including reading `message` of a `null` body, gives the retry-later text |
| WeatherService.Caught | src/services/weatherService.ts:110-119 | the catch block; ToResponse states its two outcomes: the no-connection text for a TypeError mentioning "Network", else the retry-later text |
| WeatherService.NullBodyResponses | src/services/weatherService.ts:95-109 | a `null` body on an ok status is a success without data; on an error status other than 404 it gives the retry-later text |
| WeatherService.UnparsableNotFound | src/services/weatherService.ts:93-97 | a 404 whose body does not parse gives the retry-later text, not the not-found text |
| WeatherService.ErrorTextIsKnown | src/services/weatherService.ts:95-118 | a failure always carries a non-empty text: one of the fixed texts, or the API's own message on an error status |
| WeatherService.GetCurrentWeather | src/services/weatherService.ts:85-120 | data only on success, and an error text exactly on failure; that text is non-empty and is one of the current-weather texts or the API's message |
| WeatherService.GetForecastWeather | src/services/weatherService.ts:126-151 | the same, with the forecast texts |
| WeatherService.WeatherIconUrl | src/services/weatherService.ts:157-159 | the URL is the prefix, the code and the suffix in length |
| WeatherService.IconUrlRoundTrip | src/services/weatherService.ts:157-159 | stripping the prefix and suffix from an icon URL recovers the code, and only such a URL yields that code |
| WeatherService.IsNightTime | src/services/weatherService.ts:200-206 | night exactly when the time lies outside [sunrise, sunset], so both instants count as day |
| Nfd.Decompose | src/services/weatherService.ts:54 | a character decomposes to itself or to an ASCII base letter and one or two combining marks, and ASCII and marks never decompose |
| Nfd.Normalize | src/services/weatherService.ts:54 | `normalize("NFD")`: each character replaced by its decomposition; NormalizeConcat, NormalizeStable and NormalizeFixed state its properties |
| Nfd.NormalizeConcat | src/services/weatherService.ts:54 | NFD of the modelled letters works character by character |
| Nfd.NormalizeStable | src/services/weatherService.ts:54 | NFD output does not decompose any further |
| Nfd.NormalizeFixed | src/services/weatherService.ts:54 | text whose characters do not decompose is its own NFD |
| JsString.Trim | src/services/weatherService.ts:64 | the result neither starts nor ends with white space, and is empty exactly when the input is all white space |
| JsString.TrimIdempotent | src/services/weatherService.ts:64 | trimming twice is trimming once |
| JsString.TrimSurrounded | src/services/weatherService.ts:64 | trimming removes exactly the white space around a trimmed core |
| JsString.LowerChar | src/services/weatherService.ts:64 | exactly the upper-case letters change, and the result is never upper case |
| JsString.ToLower | src/services/weatherService.ts:64 | same length, and each character is lower-cased by LowerChar |
| JsString.ToLowerIdempotent | src/styles/theme.ts:89 | lower-casing twice is lower-casing once |
| JsString.TrimCommutesWithLower | src/services/weatherService.ts:64 | lower-casing keeps white space, so lower-casing then trimming is trimming then lower-casing |
| JsString.Contains | src/screens/HomeScreen.tsx:99-101 | `includes`: the empty string is in every string, nothing longer than a string is in it, and a string of the same length is in it only when equal; ContainsMiddle, ContainsExtend and MissingCharNotContained state when a phrase is found |
| JsString.ContainsMiddle | src/screens/HomeScreen.tsx:99-101 | text built around a phrase includes it |
| JsString.MissingCharNotContained | src/screens/HomeScreen.tsx:99-101 | text lacking one character of a phrase does not include the phrase |
| Theme.GetWeatherGradient | src/styles/theme.ts:83-116 | at night the night palette; the result is always one of the eight palettes |
| Theme.ConditionGradient | src/styles/theme.ts:91-115 | the `switch` on the lower-cased keyword; NamedConditions, SharedConditions and GradientCases state which keywords select which palette |
| Theme.EightPalettes | src/styles/theme.ts:32-41 | the gradients table holds eight different palettes |
| Theme.GradientCases | src/styles/theme.ts:83-116 | for each palette, in both directions, which (flag, lower-cased keyword) pairs select it; night only with the flag, default only for unknown keywords |
| Theme.NamedConditions | src/styles/theme.ts:92-102 | "clear", "clouds", "thunderstorm" and "snow" each select their own palette, and only they do |
| Theme.SharedConditions | src/styles/theme.ts:96-114 | the rain group, the mist group and everything else select rain, mist and default, and only they do |
| Theme.GradientIgnoresCase | src/styles/theme.ts:89 | a keyword and its lower-case form select the same palette |
| Theme.NightDefaultsToFalse | src/styles/theme.ts:85-87 | without the flag the day palette is used, never the night one |
| Theme.EmptyKeywordIsDefault | src/styles/theme.ts:113-114 | the empty keyword selects the default palette |
| HomeScreen.HasId | src/screens/HomeScreen.tsx:92 | the `some` test: a saved city has the id exactly when some member of the list carries it |
| HomeScreen.AddCity | src/screens/HomeScreen.tsx:91-95 | the id is present afterwards; a known id leaves the list unchanged, keeping the first-seen entry; a new city goes in front of the old list; unique ids stay unique |
| HomeScreen.RemoveCity | src/screens/HomeScreen.tsx:55-57 | no city with the id remains, and a city is kept exactly when it was there and has another id |
| HomeScreen.RemovePreservesOrder | src/screens/HomeScreen.tsx:56 | deleting distributes over concatenation, so the relative order of the others is kept |
| HomeScreen.RemoveAbsent | src/screens/HomeScreen.tsx:56 | deleting an id that is not saved changes nothing |
| HomeScreen.RemoveIdempotent | src/screens/HomeScreen.tsx:55-57 | deleting twice is deleting once |
| HomeScreen.RemoveUnique | src/screens/HomeScreen.tsx:55-57 | deleting keeps ids unique, and removes exactly one city when the id is saved |
| HomeScreen.ClassifyError | src/screens/HomeScreen.tsx:99-105 | network exactly when the text includes "kết nối"; not found exactly when it does not but includes "tìm thấy"; general otherwise, including no text |
| HomeScreen.ErrorText | src/screens/HomeScreen.tsx:97 | the shown text is never empty, and it is the result's text whenever that is non-empty |
| HomeScreen.MissingErrorIsGeneric | src/screens/HomeScreen.tsx:88-105 | a result with no error text, such as a success without data, shows "Đã xảy ra lỗi" on a general banner |
| HomeScreen.NoConnectionIsNetwork | src/screens/HomeScreen.tsx:99-100 | the service's two no-connection texts are classified as network |
| HomeScreen.NotFoundIsNotFound | src/screens/HomeScreen.tsx:101-102 | the service's two not-found texts are classified as not found |
| HomeScreen.GenericTextsAreGeneral | src/screens/HomeScreen.tsx:103-105 | the two fallback texts and the retry-later text are classified as general |
| HomeScreen.HomeScreen.constructor | src/screens/HomeScreen.tsx:36-43 | nothing shown, not loading, no cities, no error, general banner |
| HomeScreen.HomeScreen.HandleDeleteCity | src/screens/HomeScreen.tsx:55-57 | the list becomes the filtered list, ids stay unique, and nothing else changes |
| HomeScreen.HomeScreen.ConfirmDelete | src/screens/HomeScreen.tsx:59-79 | deletion happens only when confirmed; cancelling leaves everything unchanged |
| HomeScreen.HomeScreen.StartSearch | src/screens/HomeScreen.tsx:81-83 | loading on, error cleared, weather cleared, list kept |
| HomeScreen.HomeScreen.FinishSearch | src/screens/HomeScreen.tsx:86-106 | loading off. On success with data: the data is shown and the city is added if new. Otherwise: the error text and its classification are set, and the list and the weather are kept |
| HomeScreen.HomeScreen.HandleSearch | src/screens/HomeScreen.tsx:80-107 | the whole search against `GetCurrentWeather`: on success with data the city is shown and added, with no error and the banner type kept; on failure the banner is set, the list is kept and no weather is shown; loading ends off and ids stay unique |
| DetailScreen.NoonEntries | src/screens/DetailScreen.tsx:65 | the `filter` on `index % 8 === 4`, from any starting offset: never longer than the list; NoonEntriesCount and NoonEntriesAt state how many entries it keeps and which ones |
| DetailScreen.NoonEntriesCount | src/screens/DetailScreen.tsx:64-65 | the filter keeps one entry in eight, counted from the first index that is 4 modulo 8 |
| DetailScreen.NoonEntriesAt | src/screens/DetailScreen.tsx:64-65 | the k-th kept entry is the one eight places after the (k-1)-th |
| DetailScreen.DailyForecast | src/screens/DetailScreen.tsx:64-66 | min(5, (n+3)/8) entries; entry k is the list's entry 8k+4, so order is kept; every entry at an index that is 4 modulo 8 within the first five days is shown |
| DetailScreen.IsNightNow | src/screens/DetailScreen.tsx:51-53 | `Date.now() / 1000` outside [sunrise, sunset]; NightAgreesWithService ties it to isNightTime |
| DetailScreen.NightAgreesWithService | src/screens/DetailScreen.tsx:51-53 | the screen's test on milliseconds agrees with isNightTime, with sunrise and sunset in milliseconds |
| DetailScreen.NightOnWholeSeconds | src/screens/DetailScreen.tsx:51-53 | on a whole second it agrees with isNightTime in seconds |
| DetailScreen.DetailScreen.constructor | src/screens/DetailScreen.tsx:46-48 | the route parameters are kept, the forecast is empty and the spinner is on |
| DetailScreen.DetailScreen.IsNight | src/screens/DetailScreen.tsx:51-53 | night exactly when now lies outside [sunrise, sunset] |
| DetailScreen.DetailScreen.GradientColors | src/screens/DetailScreen.tsx:54 | the night palette exactly at night; by day, the palette of the first condition's keyword |
| DetailScreen.DetailScreen.ApplyForecast | src/screens/DetailScreen.tsx:62-69 | a successful result with data sets the daily forecast; otherwise the forecast is kept; the spinner stops either way |
| DetailScreen.DetailScreen.LoadForecast | src/screens/DetailScreen.tsx:60-70 | the same, against `GetForecastWeather` for the screen's city: the forecast changes only on success with data |
| SearchInput.Submission | src/components/SearchInput.tsx:25-31 | a text is forwarded exactly when the query is not all white space, and then it is the trimmed query, non-empty and trimmed |
| SearchInput.SubmissionIdempotent | src/components/SearchInput.tsx:25-31 | submitting the forwarded text forwards it unchanged |
| SearchInput.SearchInput.constructor | src/components/SearchInput.tsx:22-23 | an empty query and no focus |
| SearchInput.SearchInput.SetQuery | src/components/SearchInput.tsx:39 | the query is the typed text as typed |
| SearchInput.SearchInput.Focus | src/components/SearchInput.tsx:44 | focused, query kept |
| SearchInput.SearchInput.Blur | src/components/SearchInput.tsx:45 | not focused, query kept |
| SearchInput.SearchInput.HandleSubmit | src/components/SearchInput.tsx:25-31 | the forwarded text is the submission of the current query: none when blank, else the trimmed non-empty query; the query itself is not changed; a forwarded query leaves the box unfocused (`Keyboard.dismiss()` blurs it, and `onBlur` at :45 clears the flag), a blank one keeps the focus flag |

## Left out

- Networking. `fetch`, building the URL with `encodeURIComponent`, the `@env` base URL and API key, and the async/Promise mechanics are left out. The request is a function parameter.
- Response bodies:
  - A non-string `message` in an error body is not modelled. The model reads the body's `message` as an optional string.
  - A body that parses to a JSON value other than an object or `null` (a number, a string, an array) is read as an object with no `message`. On an error status this gives the fallback text, which is what the source does for those values.
  - A `null` body is modelled (`NullBody`).
- AsyncStorage. Loading and saving the city list (src/screens/HomeScreen.tsx:44-54) is platform I/O. A list loaded from storage is not re-checked for duplicate ids, and the model does not cover that.
- Unicode coverage:
  - `normalize("NFD")` covers the precomposed letters of the Vietnamese alphabet only. Every other character is left unchanged, and canonical reordering of marks is not modelled.
  - `toLowerCase` covers Basic Latin, Latin-1 Supplement, Latin Extended-A and Latin Extended Additional, and of Latin Extended-B only Ơ and Ư. Every other character is left unchanged, for example U+01CD Ǎ, and so is U+0130, whose lower case is two characters long.
  - Strings are sequences of Unicode scalar values, while JavaScript strings are sequences of UTF-16 code units. A lone surrogate, which a text field can hold, cannot be represented. Well-formed text gets the same results either way.
- Dates and locale. `formatTime`, `formatDate`, `getDayOfWeek` and the clock are left out. The current time is a parameter.
- Floating point. Times are integers and the millisecond division is exact. Rounding of temperatures and visibility is left out.
- DetailScreen.DailyForecast: it does not check timestamps. The claim "one entry per day near noon" holds only when the API returns eight 3-hour entries per day starting at midnight.
- DetailScreen.DetailScreen.constructor and DetailScreen.DetailScreen.GradientColors require a snapshot with at least one weather condition. With an empty `weather` array, src/screens/DetailScreen.tsx:50 reads `undefined`, and line 54 throws a TypeError on `.main` at the first render. The model does not represent that crash.
- Rendering, styles, navigation, `Platform`, `Alert` and `window.confirm` are left out. The dialog's answer is a boolean. Of the keyboard, only the effect of `Keyboard.dismiss()` on the search box's focus flag is modelled.
- WeatherCard, ErrorMessage, LoadingSpinner and AppNavigator hold no logic beyond what is modelled: WeatherCard repeats the night and gradient logic, and the others hold only markup. src/types/weather.ts is not part of this model.

## Findings

| source | as written | input that shows it | evidently intended | confidence | as-written member | corrected member |
|---|---|---|---|---|---|---|
| src/services/weatherService.ts:67-74 | `CITY_MAPPINGS[lowerCity]` on a plain object literal also finds the members inherited from Object.prototype, which are truthy, so they are returned as the "city name" | "Constructor" (also " __proto__ ") | only the aliases in the table match; any other name is passed on as typed | not executed | WeatherService.NormalizeCityNameAsWritten (shown by WeatherService.PrototypeKeyFinding) | WeatherService.NormalizeCityName |
