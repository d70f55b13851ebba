/** The home screen (src/screens/HomeScreen.tsx): the list of saved cities,
    the search that fills it and the deletion that empties it, and the
    classification of a failed search for the error banner. */
module HomeScreen {
  import opened Wrappers
  import opened JsString
  import opened WeatherService

  // ---------------------------------------------------------------------------
  // The saved-city list
  // ---------------------------------------------------------------------------

  /** `cities.some(c => c.id === id)`: some saved city has the id. */
  predicate HasId(cities: seq<WeatherData>, id: int)
    ensures HasId(cities, id) <==> exists c :: c in cities && c.id == id
  {
    exists i :: 0 <= i < |cities| && cities[i].id == id
  }

  /** No two saved cities share an id. */
  predicate UniqueIds(cities: seq<WeatherData>) {
    forall i, j :: 0 <= i < j < |cities| ==> cities[i].id != cities[j].id
  }

  /** The update a successful search applies: a city whose id is already
      saved leaves the list as it is, a new one goes to the front. */
  function AddCity(cities: seq<WeatherData>, city: WeatherData): (r: seq<WeatherData>)
    ensures HasId(r, city.id)
    ensures HasId(cities, city.id) ==> r == cities
    ensures !HasId(cities, city.id) ==> |r| == |cities| + 1 && r[0] == city && r[1..] == cities
    ensures UniqueIds(cities) ==> UniqueIds(r)
  {
    if HasId(cities, city.id) then cities
    else
      var r := [city] + cities;
      assert r[0].id == city.id;
      assert r[1..] == cities;
      r
  }

  /** The filter of handleDeleteCity: every city except those with `id`. */
  function RemoveCity(cities: seq<WeatherData>, id: int): (r: seq<WeatherData>)
    ensures !HasId(r, id)
    ensures |r| <= |cities|
    ensures forall c :: c in r <==> c in cities && c.id != id
  {
    if cities == [] then []
    else
      var rest := RemoveCity(cities[1..], id);
      if cities[0].id != id then
        var r := [cities[0]] + rest;
        assert forall k :: 1 <= k < |r| ==> r[k] == rest[k - 1];
        r
      else rest
  }

  /** Deleting keeps the other cities in their order: filtering distributes
      over concatenation. */
  lemma {:induction false} RemovePreservesOrder(a: seq<WeatherData>, b: seq<WeatherData>, id: int)
    ensures RemoveCity(a + b, id) == RemoveCity(a, id) + RemoveCity(b, id)
  {
    if a != [] {
      assert (a + b)[0] == a[0];
      assert (a + b)[1..] == a[1..] + b;
      RemovePreservesOrder(a[1..], b, id);
    } else {
      assert a + b == b;
    }
  }

  /** Deleting an id that is not saved changes nothing. */
  lemma {:induction false} RemoveAbsent(cities: seq<WeatherData>, id: int)
    requires !HasId(cities, id)
    ensures RemoveCity(cities, id) == cities
  {
    if cities != [] {
      assert !HasId(cities[1..], id) by {
        forall i | 0 <= i < |cities[1..]| ensures cities[1..][i].id != id {
          assert cities[1..][i] == cities[i + 1];
        }
      }
      RemoveAbsent(cities[1..], id);
      assert cities[0].id != id;
      assert cities == [cities[0]] + cities[1..];
    }
  }

  /** Deleting twice is deleting once. */
  lemma RemoveIdempotent(cities: seq<WeatherData>, id: int)
    ensures RemoveCity(RemoveCity(cities, id), id) == RemoveCity(cities, id)
  {
    RemoveAbsent(RemoveCity(cities, id), id);
  }

  /** Deletion keeps ids unique, and with unique ids it removes exactly one
      city when the id is saved. */
  lemma {:induction false} RemoveUnique(cities: seq<WeatherData>, id: int)
    requires UniqueIds(cities)
    ensures UniqueIds(RemoveCity(cities, id))
    ensures |RemoveCity(cities, id)| == if HasId(cities, id) then |cities| - 1 else |cities|
  {
    if cities != [] {
      var tail := cities[1..];
      UniqueTail(cities);
      RemoveUnique(tail, id);
      HasIdCons(cities, id);
      var rest := RemoveCity(tail, id);
      if cities[0].id != id {
        assert !HasId(rest, cities[0].id) by {
          forall i | 0 <= i < |rest| ensures rest[i].id != cities[0].id {
            assert rest[i] in rest;
            assert rest[i] in tail;
          }
        }
        UniqueCons(cities[0], rest);
      }
    }
  }

  /** The tail of a list with unique ids has unique ids and lacks the head's. */
  lemma UniqueTail(cities: seq<WeatherData>)
    requires cities != [] && UniqueIds(cities)
    ensures UniqueIds(cities[1..]) && !HasId(cities[1..], cities[0].id)
  {
    var tail := cities[1..];
    forall i, j | 0 <= i < j < |tail| ensures tail[i].id != tail[j].id {
      assert tail[i] == cities[i + 1] && tail[j] == cities[j + 1];
    }
    forall i | 0 <= i < |tail| ensures tail[i].id != cities[0].id {
      assert tail[i] == cities[i + 1];
    }
  }

  /** An id is saved when the head has it or the tail does. */
  lemma HasIdCons(cities: seq<WeatherData>, id: int)
    requires cities != []
    ensures HasId(cities, id) <==> cities[0].id == id || HasId(cities[1..], id)
  {
    if HasId(cities[1..], id) {
      var i :| 0 <= i < |cities[1..]| && cities[1..][i].id == id;
      assert cities[i + 1] == cities[1..][i];
    }
    if HasId(cities, id) && cities[0].id != id {
      var i :| 0 <= i < |cities| && cities[i].id == id;
      assert cities[1..][i - 1] == cities[i];
    }
  }

  /** Putting a city with a fresh id in front keeps ids unique. */
  lemma UniqueCons(city: WeatherData, cities: seq<WeatherData>)
    requires UniqueIds(cities) && !HasId(cities, city.id)
    ensures UniqueIds([city] + cities)
  {
    var r := [city] + cities;
    forall i, j | 0 <= i < j < |r| ensures r[i].id != r[j].id {
      assert r[j] == cities[j - 1];
      if i > 0 {
        assert r[i] == cities[i - 1];
      }
    }
  }

  // ---------------------------------------------------------------------------
  // The error banner
  // ---------------------------------------------------------------------------

  /** The three looks of the error banner. */
  datatype ErrorType = Network | NotFound | General

  /** The classification of a failed search's error text: "kết nối"
      (connection) first, then "tìm thấy" (found), else general; an absent
      text is general. */
  function ClassifyError(error: Option<string>): (t: ErrorType)
    ensures t == Network <==> error.Some? && Contains(error.value, "kết nối")
    ensures t == ErrorType.NotFound <==> error.Some? && !Contains(error.value, "kết nối") && Contains(error.value, "tìm thấy")
  {
    match error
    case None => General
    case Some(e) =>
      if Contains(e, "kết nối") then Network
      else if Contains(e, "tìm thấy") then ErrorType.NotFound
      else General
  }

  /** The text shown when the result carries no usable error text. */
  const GenericError := "Đã xảy ra lỗi"

  /** `result.error || "Đã xảy ra lỗi"`: an absent or empty text falls back. */
  function ErrorText(error: Option<string>): (text: string)
    ensures text != ""
    ensures error.Some? && error.value != "" ==> text == error.value
  {
    match error
    case Some(e) => if e != "" then e else GenericError
    case None => GenericError
  }

  /** A result without an error text, such as a success whose body was
      `null`, shows the generic text on a general banner. */
  lemma MissingErrorIsGeneric()
    ensures ErrorText(None) == GenericError && ClassifyError(None) == General
  {
  }

  /** The no-connection texts of the service are classified as network
      errors. */
  lemma NoConnectionIsNetwork()
    ensures ClassifyError(Some(CurrentWeatherMessages.noConnection)) == Network
    ensures ClassifyError(Some(ForecastMessages.noConnection)) == Network
  {
    var stem := NoConnection;
    assert stem == "Không có " + "kết nối" + " Internet";
    ContainsMiddle("Không có ", "kết nối", " Internet");
    ContainsExtend(stem, "kết nối", ". Vui lòng kiểm tra mạng.");
    ContainsExtend(stem, "kết nối", ".");
  }

  /** The not-found texts of the service are classified as not found. */
  lemma NotFoundIsNotFound()
    ensures ClassifyError(Some(CurrentWeatherMessages.notFound)) == ErrorType.NotFound
    ensures ClassifyError(Some(ForecastMessages.notFound)) == ErrorType.NotFound
  {
    NotFoundText(". Vui lòng kiểm tra lại tên.");
    NotFoundText(".");
  }

  /** "Không tìm thấy thành phố" followed by an ending without "ế" is a
      not-found text. */
  lemma NotFoundText(ending: string)
    requires 'ế' !in ending
    ensures ClassifyError(Some(CityNotFound + ending)) == ErrorType.NotFound
  {
    StemMentionsNotFound();
    ContainsExtend(CityNotFound, "tìm thấy", ending);
    assert 'ế' !in CityNotFound;
    MissingCharNotContained(CityNotFound + ending, "kết nối", 1);
  }

  lemma StemMentionsNotFound()
    ensures Contains(CityNotFound, "tìm thấy")
  {
    assert CityNotFound == "Không " + "tìm thấy" + " thành phố";
    ContainsMiddle("Không ", "tìm thấy", " thành phố");
  }

  /** The generic texts of the service are classified as general. */
  lemma GenericTextsAreGeneral()
    ensures ClassifyError(Some(CurrentWeatherMessages.apiFallback)) == General
    ensures ClassifyError(Some(ForecastMessages.apiFallback)) == General
    ensures ClassifyError(Some(RetryLaterMessage)) == General
  {
    CurrentFallbackIsGeneral();
    ForecastFallbackIsGeneral();
    RetryLaterIsGeneral();
  }

  lemma CurrentFallbackIsGeneral()
    ensures ClassifyError(Some(CurrentWeatherMessages.apiFallback)) == General
  {
    GeneralText(" khi lấy dữ liệu thời tiết.");
  }

  lemma ForecastFallbackIsGeneral()
    ensures ClassifyError(Some(ForecastMessages.apiFallback)) == General
  {
    GeneralText(".");
  }

  lemma RetryLaterIsGeneral()
    ensures ClassifyError(Some(RetryLaterMessage)) == General
  {
    GeneralText(". Vui lòng thử lại sau.");
  }

  /** "Đã xảy ra lỗi" followed by an ending without "ố" or "ì" is neither a
      connection nor a not-found text. */
  lemma GeneralText(ending: string)
    requires 'ố' !in ending && 'ì' !in ending
    ensures ClassifyError(Some(ErrorOccurred + ending)) == General
  {
    assert 'ố' !in ErrorOccurred && 'ì' !in ErrorOccurred;
    MissingCharNotContained(ErrorOccurred + ending, "kết nối", 5);
    MissingCharNotContained(ErrorOccurred + ending, "tìm thấy", 1);
  }

  // ---------------------------------------------------------------------------
  // The screen state
  // ---------------------------------------------------------------------------

  /** The state cells of the home screen. */
  class HomeScreen {
    var weatherData: Option<WeatherData>
    var loading: bool
    var cities: seq<WeatherData>
    var error: Option<string>
    var errorType: ErrorType

    /** The list never holds two cities with the same id. */
    predicate Valid()
      reads this
    {
      UniqueIds(cities)
    }

    /** The initial state: nothing shown, nothing saved. */
    constructor()
      ensures weatherData == None && !loading && cities == []
      ensures error == None && errorType == General
      ensures Valid()
    {
      weatherData := None;
      loading := false;
      cities := [];
      error := None;
      errorType := General;
    }

    /** handleDeleteCity. */
    method HandleDeleteCity(id: int)
      requires Valid()
      modifies this
      ensures Valid()
      ensures cities == RemoveCity(old(cities), id)
      ensures weatherData == old(weatherData) && loading == old(loading)
      ensures error == old(error) && errorType == old(errorType)
    {
      RemoveUnique(cities, id);
      cities := RemoveCity(cities, id);
    }

    /** confirmDelete: the dialog's answer is `confirmed`; cancelling keeps
        the list. */
    method ConfirmDelete(id: int, confirmed: bool)
      requires Valid()
      modifies this
      ensures Valid()
      ensures cities == if confirmed then RemoveCity(old(cities), id) else old(cities)
      ensures weatherData == old(weatherData) && loading == old(loading)
      ensures error == old(error) && errorType == old(errorType)
    {
      if confirmed {
        HandleDeleteCity(id);
      }
    }

    /** The start of handleSearch, before the request. */
    method StartSearch()
      modifies this
      ensures loading && error == None && weatherData == None
      ensures cities == old(cities) && errorType == old(errorType)
    {
      loading := true;
      error := None;
      weatherData := None;
    }

    /** The end of handleSearch, once the result is in. */
    method FinishSearch(result: ApiResponse<WeatherData>)
      requires Valid()
      modifies this
      ensures Valid() && !loading
      ensures result.success && result.data.Some? ==>
                && weatherData == result.data
                && cities == AddCity(old(cities), result.data.value)
                && error == old(error) && errorType == old(errorType)
      ensures !(result.success && result.data.Some?) ==>
                && error == Some(ErrorText(result.error))
                && errorType == ClassifyError(result.error)
                && cities == old(cities) && weatherData == old(weatherData)
    {
      loading := false;
      if result.success && result.data.Some? {
        weatherData := result.data;
        cities := AddCity(cities, result.data.value);
      } else {
        error := Some(ErrorText(result.error));
        errorType := ClassifyError(result.error);
      }
    }

    /** handleSearch: start, ask the service, finish. */
    method HandleSearch(city: string, fetch: string -> FetchOutcome<WeatherData>)
      requires Valid()
      modifies this
      ensures Valid() && !loading
      ensures var r := GetCurrentWeather(city, fetch);
              if r.success && r.data.Some? then
                && weatherData == r.data
                && cities == AddCity(old(cities), r.data.value)
                && error == None && errorType == old(errorType)
              else
                && error == Some(ErrorText(r.error))
                && errorType == ClassifyError(r.error)
                && cities == old(cities) && weatherData == None
    {
      StartSearch();
      var result := GetCurrentWeather(city, fetch);
      FinishSearch(result);
    }
  }
}
