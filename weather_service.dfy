/** The weather service (src/services/weatherService.ts): the city-name
    normaliser with its alias table and diacritic stripping, the mapping of a
    fetch outcome to the `{success, data?, error?}` response, the icon URL and
    the day/night rule. The HTTP request itself is a parameter: a function
    from the normalised city name to what `fetch` and `response.json()` did. */
module WeatherService {
  import opened Wrappers
  import opened JsString
  import Nfd

  // ---------------------------------------------------------------------------
  // Payloads (the fields of the OpenWeather JSON that the screens read)
  // ---------------------------------------------------------------------------

  /** One entry of the `weather` array: `main` is the condition keyword. */
  datatype Condition = Condition(main: string, description: string, icon: string)

  /** A current-weather snapshot; `id` is the city identifier. */
  datatype WeatherData = WeatherData(
    id: int, name: string, weather: seq<Condition>,
    sunrise: int, sunset: int, timezone: int)

  /** One 3-hour entry of the forecast. */
  datatype ForecastItem = ForecastItem(dt: int, dtTxt: string, weather: seq<Condition>)

  datatype ForecastData = ForecastData(list: seq<ForecastItem>)

  // ---------------------------------------------------------------------------
  // City-name normalisation
  // ---------------------------------------------------------------------------

  /** CITY_MAPPINGS: lower-case aliases of Vietnamese cities and the name the
      API knows them by. */
  const CityMappings: map<string, string> := map[
    "hà nội" := "Hanoi", "ha noi" := "Hanoi", "hanoi" := "Hanoi",
    "hồ chí minh" := "Ho Chi Minh City", "ho chi minh" := "Ho Chi Minh City",
    "tp hcm" := "Ho Chi Minh City", "sài gòn" := "Ho Chi Minh City",
    "saigon" := "Ho Chi Minh City",
    "đà nẵng" := "Da Nang", "da nang" := "Da Nang",
    "hải phòng" := "Haiphong", "hai phong" := "Haiphong",
    "cần thơ" := "Can Tho", "can tho" := "Can Tho",
    "nha trang" := "Nha Trang",
    "huế" := "Hue", "hue" := "Hue",
    "vũng tàu" := "Vung Tau", "vung tau" := "Vung Tau",
    "đà lạt" := "Da Lat", "da lat" := "Da Lat",
    "biên hòa" := "Bien Hoa", "bien hoa" := "Bien Hoa",
    "quy nhơn" := "Quy Nhon", "quy nhon" := "Quy Nhon"
  ]

  /** The eleven names the table maps to. */
  const CanonicalNames: set<string> := {
    "Hanoi", "Ho Chi Minh City", "Da Nang", "Haiphong", "Can Tho", "Nha Trang",
    "Hue", "Vung Tau", "Da Lat", "Bien Hoa", "Quy Nhon"
  }

  lemma CanonicalNamesAreTheValues()
    ensures forall k :: k in CityMappings ==> CityMappings[k] in CanonicalNames
    ensures forall n :: n in CanonicalNames ==> n in CityMappings.Values
  {
    assert CityMappings["hanoi"] == "Hanoi";
    assert CityMappings["saigon"] == "Ho Chi Minh City";
    assert CityMappings["da nang"] == "Da Nang";
    assert CityMappings["hai phong"] == "Haiphong";
    assert CityMappings["can tho"] == "Can Tho";
    assert CityMappings["nha trang"] == "Nha Trang";
    assert CityMappings["hue"] == "Hue";
    assert CityMappings["vung tau"] == "Vung Tau";
    assert CityMappings["da lat"] == "Da Lat";
    assert CityMappings["bien hoa"] == "Bien Hoa";
    assert CityMappings["quy nhon"] == "Quy Nhon";
  }

  /** Every character is ASCII. */
  predicate IsAscii(s: string) {
    forall i :: 0 <= i < |s| ==> s[i] < '\U{80}'
  }

  /** The `.replace` of the range U+0300..U+036F by "": drops every combining mark, keeps
      the other characters in order. */
  function RemoveMarks(s: string): (r: string)
    ensures |r| <= |s|
    ensures forall i :: 0 <= i < |r| ==> !Nfd.IsCombiningMark(r[i]) && r[i] in s
  {
    if s == [] then []
    else if Nfd.IsCombiningMark(s[0]) then RemoveMarks(s[1..])
    else [s[0]] + RemoveMarks(s[1..])
  }

  /** `.replace(/x/g, y)` for a single character `x`: every `x` becomes `y`,
      so no `x` is left, and every other character stays in place. */
  function ReplaceAll(s: string, x: char, y: char): (r: string)
    ensures x != y ==> x !in r
    ensures |r| == |s|
    ensures forall i :: 0 <= i < |s| ==> r[i] == (if s[i] == x then y else s[i])
  {
    seq(|s|, i requires 0 <= i < |s| => if s[i] == x then y else s[i])
  }

  /** removeVietnameseDiacritics: NFD, then drop U+0300..U+036F, then
      `đ` to `d` and `Đ` to `D` (the stroke is not a combining mark). */
  function RemoveVietnameseDiacritics(s: string): (r: string)
    ensures forall i :: 0 <= i < |r| ==> !Nfd.IsCombiningMark(r[i]) && r[i] != 'đ' && r[i] != 'Đ'
  {
    ReplaceAll(ReplaceAll(RemoveMarks(Nfd.Normalize(s)), 'đ', 'd'), 'Đ', 'D')
  }

  /** Plain ASCII text has no diacritics to strip. */
  lemma RemoveDiacriticsOfAscii(s: string)
    requires IsAscii(s)
    ensures RemoveVietnameseDiacritics(s) == s
  {
    AsciiIsStable(s);
    Nfd.NormalizeFixed(s);
    RemoveMarksOfUnmarked(s);
  }

  /** RemoveMarks leaves a string without combining marks alone. */
  lemma {:induction false} RemoveMarksOfUnmarked(s: string)
    requires forall i :: 0 <= i < |s| ==> !Nfd.IsCombiningMark(s[i])
    ensures RemoveMarks(s) == s
  {
    if s != [] {
      RemoveMarksOfUnmarked(s[1..]);
    }
  }

  /** Dropping marks works character by character. */
  lemma {:induction false} RemoveMarksConcat(a: string, b: string)
    ensures RemoveMarks(a + b) == RemoveMarks(a) + RemoveMarks(b)
  {
    if a != [] {
      var ab := a + b;
      assert ab[0] == a[0];
      assert ab[1..] == a[1..] + b;
      RemoveMarksConcat(a[1..], b);
      var rest := RemoveMarks(a[1..]) + RemoveMarks(b);
      if !Nfd.IsCombiningMark(a[0]) {
        assert RemoveMarks(ab) == [a[0]] + rest;
        assert RemoveMarks(a) == [a[0]] + RemoveMarks(a[1..]);
        assert [a[0]] + rest == ([a[0]] + RemoveMarks(a[1..])) + RemoveMarks(b);
      }
    } else {
      assert a + b == b;
    }
  }

  /** One precomposed Vietnamese letter inside ASCII text is replaced by its
      base letter and nothing else changes. */
  lemma StripOneLetter(a: string, c: char, b: string)
    requires IsAscii(a) && IsAscii(b)
    requires Nfd.IsLetterDecomposition(Nfd.Decompose(c))
    ensures RemoveVietnameseDiacritics(a + [c] + b) == a + [Nfd.Decompose(c)[0]] + b
  {
    var d := Nfd.Decompose(c);
    NormalizeOneLetter(a, c, b);
    MarksOfOneLetter(a, d, b);
    var t := a + [d[0]] + b;
    assert forall i :: 0 <= i < |t| ==> t[i] < '\U{80}' by {
      forall i | 0 <= i < |t| ensures t[i] < '\U{80}' {
        if i < |a| { assert t[i] == a[i]; }
        else if i > |a| { assert t[i] == b[i - |a| - 1]; }
      }
    }
    ReplaceAbsent(t, 'đ', 'd');
    ReplaceAbsent(t, 'Đ', 'D');
  }

  lemma NormalizeOneLetter(a: string, c: char, b: string)
    requires IsAscii(a) && IsAscii(b)
    ensures Nfd.Normalize(a + [c] + b) == a + Nfd.Decompose(c) + b
  {
    AsciiIsStable(a);
    AsciiIsStable(b);
    Nfd.NormalizeFixed(a);
    Nfd.NormalizeFixed(b);
    Nfd.NormalizeConcat(a + [c], b);
    Nfd.NormalizeConcat(a, [c]);
    Nfd.NormalizeSingle(c);
  }

  lemma MarksOfOneLetter(a: string, d: string, b: string)
    requires IsAscii(a) && IsAscii(b) && Nfd.IsLetterDecomposition(d)
    ensures RemoveMarks(a + d + b) == a + [d[0]] + b
  {
    RemoveMarksOfUnmarked(a);
    RemoveMarksOfUnmarked(b);
    RemoveMarksConcat(a + d, b);
    RemoveMarksConcat(a, d);
    MarksOfDecomposition(d);
  }

  /** Dropping the marks of a table entry leaves its base letter. */
  lemma MarksOfDecomposition(d: string)
    requires Nfd.IsLetterDecomposition(d)
    ensures RemoveMarks(d) == [d[0]]
  {
    assert RemoveMarks(d[2..]) == [] by {
      if |d| == 3 {
        assert d[2..][1..] == [];
      }
    }
    assert d[1..][1..] == d[2..];
  }

  /** ASCII text never decomposes. */
  lemma AsciiIsStable(s: string)
    requires IsAscii(s)
    ensures Nfd.IsStable(s)
  {
    forall i | 0 <= i < |s| ensures Nfd.Decompose(s[i]) == [s[i]] {
      Nfd.BaseAndMarksFixed(s[i]);
    }
  }

  /** Replacing a character that does not occur changes nothing. */
  lemma ReplaceAbsent(s: string, x: char, y: char)
    requires forall i :: 0 <= i < |s| ==> s[i] != x
    ensures ReplaceAll(s, x, y) == s
  {
  }

  /** Replacing works character by character. */
  lemma ReplaceAllConcat(a: string, b: string, x: char, y: char)
    ensures ReplaceAll(a + b, x, y) == ReplaceAll(a, x, y) + ReplaceAll(b, x, y)
  {
    var r := ReplaceAll(a, x, y) + ReplaceAll(b, x, y);
    forall i | 0 <= i < |a + b| ensures ReplaceAll(a + b, x, y)[i] == r[i] {
      if i >= |a| { assert (a + b)[i] == b[i - |a|]; }
    }
  }

  /** Stripping diacritics works piece by piece. */
  lemma RemoveDiacriticsConcat(a: string, b: string)
    ensures RemoveVietnameseDiacritics(a + b) == RemoveVietnameseDiacritics(a) + RemoveVietnameseDiacritics(b)
  {
    var ma := RemoveMarks(Nfd.Normalize(a));
    var mb := RemoveMarks(Nfd.Normalize(b));
    Nfd.NormalizeConcat(a, b);
    RemoveMarksConcat(Nfd.Normalize(a), Nfd.Normalize(b));
    ReplaceAllConcat(ma, mb, 'đ', 'd');
    ReplaceAllConcat(ReplaceAll(ma, 'đ', 'd'), ReplaceAll(mb, 'đ', 'd'), 'Đ', 'D');
  }

  /** Two precomposed Vietnamese letters inside ASCII text. */
  lemma StripTwoLetters(a: string, c: char, b: string, e: char, f: string)
    requires IsAscii(a) && IsAscii(b) && IsAscii(f)
    requires Nfd.IsLetterDecomposition(Nfd.Decompose(c))
    requires Nfd.IsLetterDecomposition(Nfd.Decompose(e))
    ensures RemoveVietnameseDiacritics(a + [c] + b + [e] + f)
            == a + [Nfd.Decompose(c)[0]] + b + [Nfd.Decompose(e)[0]] + f
  {
    StripOneLetter(a, c, b);
    StripOneLetter([], e, f);
    assert a + [c] + b + [e] + f == (a + [c] + b) + ([] + [e] + f);
    RemoveDiacriticsConcat(a + [c] + b, [] + [e] + f);
  }

  /** `đ` becomes `d`: it does not decompose, is no combining mark, and the
      first replacement catches it. */
  lemma StrokeAlone(t: string)
    requires t == ['đ']
    ensures RemoveVietnameseDiacritics(t) == ['d']
  {
    Nfd.NormalizeSingle('đ');
    var n := Nfd.Normalize(t);
    assert n == t;
    var m := RemoveMarks(n);
    assert m == [t[0]] + RemoveMarks(t[1..]);
    assert t[1..] == [];
    var r1 := ReplaceAll(m, 'đ', 'd');
    assert r1 == ['d'];
  }

  /** Two pieces stripped apart, joined. */
  lemma StripJoin(s1: string, t1: string, s2: string, t2: string)
    requires RemoveVietnameseDiacritics(s1) == t1 && RemoveVietnameseDiacritics(s2) == t2
    ensures RemoveVietnameseDiacritics(s1 + s2) == t1 + t2
  {
    RemoveDiacriticsConcat(s1, s2);
  }

  /** Stripping diacritics twice is stripping them once. */
  lemma RemoveDiacriticsIdempotent(s: string)
    ensures RemoveVietnameseDiacritics(RemoveVietnameseDiacritics(s)) == RemoveVietnameseDiacritics(s)
  {
    var n := Nfd.Normalize(s);
    var t := RemoveVietnameseDiacritics(s);
    Nfd.NormalizeStable(s);
    assert Nfd.IsStable(t) by {
      forall i | 0 <= i < |t| ensures Nfd.Decompose(t[i]) == [t[i]] {
        var m := RemoveMarks(n);
        var m1 := ReplaceAll(m, 'đ', 'd');
        if t[i] == 'D' || t[i] == 'd' {
          Nfd.BaseAndMarksFixed(t[i]);
        } else {
          assert t[i] == m1[i] == m[i];
          var j :| 0 <= j < |n| && n[j] == m[i];
        }
      }
    }
    Nfd.NormalizeFixed(t);
    RemoveMarksOfUnmarked(t);
  }

  /** normalizeCityName: look up the lower-cased, trimmed input in
      CITY_MAPPINGS; failing that, look up its diacritic-free form; failing
      that, return the input exactly as given. The lookups are own-key
      lookups (the object-literal lookup the source performs is
      NormalizeCityNameAsWritten below). */
  function NormalizeCityName(city: string): (r: string)
    ensures var key := Trim(ToLower(city));
            key in CityMappings ==> r == CityMappings[key]
    ensures var key := Trim(ToLower(city));
            var bare := RemoveVietnameseDiacritics(key);
            key !in CityMappings && bare in CityMappings ==> r == CityMappings[bare]
    ensures var key := Trim(ToLower(city));
            key !in CityMappings && RemoveVietnameseDiacritics(key) !in CityMappings ==> r == city
  {
    NormalizeWith(CityMappings, city)
  }

  /** The algorithm of normalizeCityName over any alias table. */
  function NormalizeWith(table: map<string, string>, city: string): string {
    var lowerCity := Trim(ToLower(city));
    if lowerCity in table then table[lowerCity]
    else
      var withoutDiacritics := RemoveVietnameseDiacritics(lowerCity);
      if withoutDiacritics in table then table[withoutDiacritics]
      else city
  }

  /** The result is a canonical name from the table or the input itself. */
  lemma NormalizeRange(city: string)
    ensures NormalizeCityName(city) in CanonicalNames || NormalizeCityName(city) == city
  {
    CanonicalNamesAreTheValues();
  }

  /** Each canonical name normalises to itself: either its lower-case form is
      a key mapping back to it ("Da Nang"), or it misses both lookups
      ("Ho Chi Minh City", "Haiphong"). */
  lemma CanonicalNamesAreFixed()
    ensures forall n :: n in CanonicalNames ==> NormalizeCityName(n) == n
  {
    forall n | n in CanonicalNames ensures NormalizeCityName(n) == n {
      if n == "Hanoi" { HanoiFixed(n); }
      else if n == "Ho Chi Minh City" { HoChiMinhCityFixed(n); }
      else if n == "Da Nang" { DaNangFixed(n); }
      else if n == "Haiphong" { HaiphongFixed(n); }
      else if n == "Can Tho" { CanThoFixed(n); }
      else if n == "Nha Trang" { NhaTrangFixed(n); }
      else if n == "Hue" { HueFixed(n); }
      else if n == "Vung Tau" { VungTauFixed(n); }
      else if n == "Da Lat" { DaLatFixed(n); }
      else if n == "Bien Hoa" { BienHoaFixed(n); }
      else { QuyNhonFixed(n); }
    }
  }

  /** The canonical names one at a time. Here and in the alias and
      Object.prototype groups below, each lemma settles a few literal
      strings against the whole 25-entry table; putting more literals in one
      lemma makes its proof grow much faster than the number of entries, so
      the facts are split into small lemmas of the same shape. */
  lemma HanoiFixed(n: string)
    requires n == "Hanoi"
    ensures NormalizeCityName(n) == n
  {
    AsciiNameFixed(n, "hanoi");
  }

  lemma HoChiMinhCityFixed(n: string)
    requires n == "Ho Chi Minh City"
    ensures NormalizeCityName(n) == n
  {
    AsciiNameFixed(n, "ho chi minh city");
  }

  lemma DaNangFixed(n: string)
    requires n == "Da Nang"
    ensures NormalizeCityName(n) == n
  {
    AsciiNameFixed(n, "da nang");
  }

  lemma HaiphongFixed(n: string)
    requires n == "Haiphong"
    ensures NormalizeCityName(n) == n
  {
    AsciiNameFixed(n, "haiphong");
  }

  lemma CanThoFixed(n: string)
    requires n == "Can Tho"
    ensures NormalizeCityName(n) == n
  {
    AsciiNameFixed(n, "can tho");
  }

  lemma NhaTrangFixed(n: string)
    requires n == "Nha Trang"
    ensures NormalizeCityName(n) == n
  {
    AsciiNameFixed(n, "nha trang");
  }

  lemma HueFixed(n: string)
    requires n == "Hue"
    ensures NormalizeCityName(n) == n
  {
    AsciiNameFixed(n, "hue");
  }

  lemma VungTauFixed(n: string)
    requires n == "Vung Tau"
    ensures NormalizeCityName(n) == n
  {
    AsciiNameFixed(n, "vung tau");
  }

  lemma DaLatFixed(n: string)
    requires n == "Da Lat"
    ensures NormalizeCityName(n) == n
  {
    AsciiNameFixed(n, "da lat");
  }

  lemma BienHoaFixed(n: string)
    requires n == "Bien Hoa"
    ensures NormalizeCityName(n) == n
  {
    AsciiNameFixed(n, "bien hoa");
  }

  lemma QuyNhonFixed(n: string)
    requires n == "Quy Nhon"
    ensures NormalizeCityName(n) == n
  {
    AsciiNameFixed(n, "quy nhon");
  }

  /** An ASCII name whose lower-case form `key` is trimmed, and is either no
      key or a key for the name itself, normalises to itself. */
  lemma AsciiNameFixed(n: string, key: string)
    requires IsAscii(n) && ToLower(n) == key && IsTrimmed(key)
    requires key in CityMappings ==> CityMappings[key] == n
    ensures NormalizeCityName(n) == n
  {
    AsciiNameFixedIn(CityMappings, n, key);
  }

  lemma AsciiNameFixedIn(table: map<string, string>, n: string, key: string)
    requires IsAscii(n) && ToLower(n) == key && IsTrimmed(key)
    requires key in table ==> table[key] == n
    ensures NormalizeWith(table, n) == n
  {
    TrimmedIsFixed(key);
    if key !in table {
      assert IsAscii(key) by {
        forall i | 0 <= i < |key| ensures key[i] < '\U{80}' {
          assert key[i] == LowerChar(n[i]);
        }
      }
      RemoveDiacriticsOfAscii(key);
    }
  }

  /** Normalisation is idempotent. */
  lemma NormalizeIdempotent(city: string)
    ensures NormalizeCityName(NormalizeCityName(city)) == NormalizeCityName(city)
  {
    NormalizeRange(city);
    CanonicalNamesAreFixed();
  }

  /** Every alias in the table is already lower case and trimmed, so
      normalising it gives its table value. */
  lemma NormalizeTableKeys()
    ensures forall k :: k in CityMappings ==> NormalizeCityName(k) == CityMappings[k]
  {
    forall k | k in CityMappings ensures NormalizeCityName(k) == CityMappings[k] {
      KeysAreLowerAndTrimmed(k);
      TrimmedIsFixed(k);
    }
  }

  lemma KeysAreLowerAndTrimmed(k: string)
    requires k in CityMappings
    ensures ToLower(k) == k && IsTrimmed(k)
  {
    if k in ["hà nội", "ha noi", "hanoi", "hồ chí minh", "ho chi minh"] { AliasGroup1(k); }
    if k in ["tp hcm", "sài gòn", "saigon", "đà nẵng", "da nang"] { AliasGroup2(k); }
    if k in ["hải phòng", "hai phong", "cần thơ", "can tho", "nha trang"] { AliasGroup3(k); }
    if k in ["huế", "hue", "vũng tàu", "vung tau", "đà lạt"] { AliasGroup4(k); }
    if k in ["da lat", "biên hòa", "bien hoa", "quy nhơn", "quy nhon"] { AliasGroup5(k); }
  }

  /** The aliases, five at a time to keep each proof small. */
  lemma AliasGroup1(k: string)
    requires k in ["hà nội", "ha noi", "hanoi", "hồ chí minh", "ho chi minh"]
    ensures ToLower(k) == k && IsTrimmed(k)
  {
  }

  lemma AliasGroup2(k: string)
    requires k in ["tp hcm", "sài gòn", "saigon", "đà nẵng", "da nang"]
    ensures ToLower(k) == k && IsTrimmed(k)
  {
  }

  lemma AliasGroup3(k: string)
    requires k in ["hải phòng", "hai phong", "cần thơ", "can tho", "nha trang"]
    ensures ToLower(k) == k && IsTrimmed(k)
  {
  }

  lemma AliasGroup4(k: string)
    requires k in ["huế", "hue", "vũng tàu", "vung tau", "đà lạt"]
    ensures ToLower(k) == k && IsTrimmed(k)
  {
  }

  lemma AliasGroup5(k: string)
    requires k in ["da lat", "biên hòa", "bien hoa", "quy nhơn", "quy nhon"]
    ensures ToLower(k) == k && IsTrimmed(k)
  {
  }

  /** Typing an alias without its diacritics reaches the same city, whenever
      the stripped form is an alias too. That holds for every accented alias
      except "sài gòn", whose stripped form "sai gon" is no alias. */
  lemma StrippedAliasAgrees(k: string)
    requires k in CityMappings && RemoveVietnameseDiacritics(k) in CityMappings
    ensures NormalizeCityName(RemoveVietnameseDiacritics(k)) == CityMappings[k]
  {
    NormalizeTableKeys();
    StrippedKeyAgrees(k);
  }

  /** The stripped form of an alias, when it is an alias, has the same value.
      The aliases are taken five at a time, in the groups of
      KeysAreLowerAndTrimmed. */
  lemma StrippedKeyAgrees(k: string)
    requires k in CityMappings
    ensures var bare := RemoveVietnameseDiacritics(k);
            bare in CityMappings ==> CityMappings[bare] == CityMappings[k]
  {
    if k in ["hà nội", "ha noi", "hanoi", "hồ chí minh", "ho chi minh"] { StrippedGroup1(k); }
    if k in ["tp hcm", "sài gòn", "saigon", "đà nẵng", "da nang"] { StrippedGroup2(k); }
    if k in ["hải phòng", "hai phong", "cần thơ", "can tho", "nha trang"] { StrippedGroup3(k); }
    if k in ["huế", "hue", "vũng tàu", "vung tau", "đà lạt"] { StrippedGroup4(k); }
    if k in ["da lat", "biên hòa", "bien hoa", "quy nhơn", "quy nhon"] { StrippedGroup5(k); }
  }

  lemma StrippedGroup1(k: string)
    requires k in ["hà nội", "ha noi", "hanoi", "hồ chí minh", "ho chi minh"]
    ensures var bare := RemoveVietnameseDiacritics(k);
            bare in CityMappings ==> CityMappings[bare] == CityMappings[k]
  {
    if k in ["ha noi", "hanoi", "ho chi minh"] {
      assert IsAscii(k);
      RemoveDiacriticsOfAscii(k);
    }
    if k == "hà nội" { AgreesHaNoi(k); }
    if k == "hồ chí minh" { AgreesHoChiMinh(k); }
  }

  lemma StrippedGroup2(k: string)
    requires k in ["tp hcm", "sài gòn", "saigon", "đà nẵng", "da nang"]
    ensures var bare := RemoveVietnameseDiacritics(k);
            bare in CityMappings ==> CityMappings[bare] == CityMappings[k]
  {
    if k in ["tp hcm", "saigon", "da nang"] {
      assert IsAscii(k);
      RemoveDiacriticsOfAscii(k);
    }
    if k == "sài gòn" { AgreesSaiGon(k); }
    if k == "đà nẵng" { AgreesDaNang(k); }
  }

  lemma StrippedGroup3(k: string)
    requires k in ["hải phòng", "hai phong", "cần thơ", "can tho", "nha trang"]
    ensures var bare := RemoveVietnameseDiacritics(k);
            bare in CityMappings ==> CityMappings[bare] == CityMappings[k]
  {
    if k in ["hai phong", "can tho", "nha trang"] {
      assert IsAscii(k);
      RemoveDiacriticsOfAscii(k);
    }
    if k == "hải phòng" { AgreesHaiPhong(k); }
    if k == "cần thơ" { AgreesCanTho(k); }
  }

  lemma StrippedGroup4(k: string)
    requires k in ["huế", "hue", "vũng tàu", "vung tau", "đà lạt"]
    ensures var bare := RemoveVietnameseDiacritics(k);
            bare in CityMappings ==> CityMappings[bare] == CityMappings[k]
  {
    if k in ["hue", "vung tau"] {
      assert IsAscii(k);
      RemoveDiacriticsOfAscii(k);
    }
    if k == "huế" { AgreesHue(k); }
    if k == "vũng tàu" { AgreesVungTau(k); }
    if k == "đà lạt" { AgreesDaLat(k); }
  }

  lemma StrippedGroup5(k: string)
    requires k in ["da lat", "biên hòa", "bien hoa", "quy nhơn", "quy nhon"]
    ensures var bare := RemoveVietnameseDiacritics(k);
            bare in CityMappings ==> CityMappings[bare] == CityMappings[k]
  {
    if k in ["da lat", "bien hoa", "quy nhon"] {
      assert IsAscii(k);
      RemoveDiacriticsOfAscii(k);
    }
    if k == "biên hòa" { AgreesBienHoa(k); }
    if k == "quy nhơn" { AgreesQuyNhon(k); }
  }

  /** The accented aliases one at a time. For each, `Agrees…` joins two
      lemmas: `Strip…` computes the stripped form from the alias's ASCII
      pieces and precomposed letters, and `Pair…` looks both spellings up in
      the table. Computing and looking up in one lemma costs far more than
      the two apart. */
  lemma AgreesHaNoi(k: string)
    requires k == "hà nội"
    ensures RemoveVietnameseDiacritics(k) in CityMappings
    ensures CityMappings[RemoveVietnameseDiacritics(k)] == CityMappings[k]
  {
    StripHaNoi(k);
    PairHaNoi();
  }

  lemma PairHaNoi()
    ensures "ha noi" in CityMappings && "hà nội" in CityMappings
    ensures CityMappings["ha noi"] == CityMappings["hà nội"]
  {
  }

  lemma StripHaNoi(k: string)
    requires k == "hà nội"
    ensures RemoveVietnameseDiacritics(k) == "ha noi"
  {
    assert k == "h" + ['à'] + " n" + ['ộ'] + "i";
    StripTwoLetters("h", 'à', " n", 'ộ', "i");
  }

  lemma AgreesHoChiMinh(k: string)
    requires k == "hồ chí minh"
    ensures RemoveVietnameseDiacritics(k) in CityMappings
    ensures CityMappings[RemoveVietnameseDiacritics(k)] == CityMappings[k]
  {
    StripHoChiMinh(k);
    PairHoChiMinh();
  }

  lemma PairHoChiMinh()
    ensures "ho chi minh" in CityMappings && "hồ chí minh" in CityMappings
    ensures CityMappings["ho chi minh"] == CityMappings["hồ chí minh"]
  {
  }

  lemma StripHoChiMinh(k: string)
    requires k == "hồ chí minh"
    ensures RemoveVietnameseDiacritics(k) == "ho chi minh"
  {
    assert k == "h" + ['ồ'] + " ch" + ['í'] + " minh";
    StripTwoLetters("h", 'ồ', " ch", 'í', " minh");
  }

  lemma AgreesSaiGon(k: string)
    requires k == "sài gòn"
    ensures RemoveVietnameseDiacritics(k) !in CityMappings
  {
    StripSaiGon(k);
    PairSaiGon();
  }

  lemma PairSaiGon()
    ensures "sai gon" !in CityMappings
  {
  }

  lemma StripSaiGon(k: string)
    requires k == "sài gòn"
    ensures RemoveVietnameseDiacritics(k) == "sai gon"
  {
    assert k == "s" + ['à'] + "i g" + ['ò'] + "n";
    StripTwoLetters("s", 'à', "i g", 'ò', "n");
  }

  lemma AgreesDaNang(k: string)
    requires k == "đà nẵng"
    ensures RemoveVietnameseDiacritics(k) in CityMappings
    ensures CityMappings[RemoveVietnameseDiacritics(k)] == CityMappings[k]
  {
    StripDaNang(k);
    PairDaNang();
  }

  lemma PairDaNang()
    ensures "da nang" in CityMappings && "đà nẵng" in CityMappings
    ensures CityMappings["da nang"] == CityMappings["đà nẵng"]
  {
  }

  lemma StripDaNang(k: string)
    requires k == "đà nẵng"
    ensures RemoveVietnameseDiacritics(k) == "da nang"
  {
    var head, tail := k[..1], k[1..];
    assert head == ['đ'] && tail == "à nẵng";
    StrokeAlone(head);
    StripDaNangTail(tail);
    assert k == head + tail;
    StripJoin(head, ['d'], tail, "a nang");
  }

  lemma StripDaNangTail(r: string)
    requires r == "à nẵng"
    ensures RemoveVietnameseDiacritics(r) == "a nang"
  {
    assert r == "" + ['à'] + " n" + ['ẵ'] + "ng";
    StripTwoLetters("", 'à', " n", 'ẵ', "ng");
  }

  lemma AgreesHaiPhong(k: string)
    requires k == "hải phòng"
    ensures RemoveVietnameseDiacritics(k) in CityMappings
    ensures CityMappings[RemoveVietnameseDiacritics(k)] == CityMappings[k]
  {
    StripHaiPhong(k);
    PairHaiPhong();
  }

  lemma PairHaiPhong()
    ensures "hai phong" in CityMappings && "hải phòng" in CityMappings
    ensures CityMappings["hai phong"] == CityMappings["hải phòng"]
  {
  }

  lemma StripHaiPhong(k: string)
    requires k == "hải phòng"
    ensures RemoveVietnameseDiacritics(k) == "hai phong"
  {
    assert k == "h" + ['ả'] + "i ph" + ['ò'] + "ng";
    StripTwoLetters("h", 'ả', "i ph", 'ò', "ng");
  }

  lemma AgreesCanTho(k: string)
    requires k == "cần thơ"
    ensures RemoveVietnameseDiacritics(k) in CityMappings
    ensures CityMappings[RemoveVietnameseDiacritics(k)] == CityMappings[k]
  {
    StripCanTho(k);
    PairCanTho();
  }

  lemma PairCanTho()
    ensures "can tho" in CityMappings && "cần thơ" in CityMappings
    ensures CityMappings["can tho"] == CityMappings["cần thơ"]
  {
  }

  lemma StripCanTho(k: string)
    requires k == "cần thơ"
    ensures RemoveVietnameseDiacritics(k) == "can tho"
  {
    assert k == "c" + ['ầ'] + "n th" + ['ơ'] + [];
    StripTwoLetters("c", 'ầ', "n th", 'ơ', []);
  }

  lemma AgreesHue(k: string)
    requires k == "huế"
    ensures RemoveVietnameseDiacritics(k) in CityMappings
    ensures CityMappings[RemoveVietnameseDiacritics(k)] == CityMappings[k]
  {
    StripHue(k);
    PairHue();
  }

  lemma PairHue()
    ensures "hue" in CityMappings && "huế" in CityMappings
    ensures CityMappings["hue"] == CityMappings["huế"]
  {
  }

  lemma StripHue(k: string)
    requires k == "huế"
    ensures RemoveVietnameseDiacritics(k) == "hue"
  {
    assert k == "hu" + ['ế'] + [];
    StripOneLetter("hu", 'ế', []);
  }

  lemma AgreesVungTau(k: string)
    requires k == "vũng tàu"
    ensures RemoveVietnameseDiacritics(k) in CityMappings
    ensures CityMappings[RemoveVietnameseDiacritics(k)] == CityMappings[k]
  {
    StripVungTau(k);
    PairVungTau();
  }

  lemma PairVungTau()
    ensures "vung tau" in CityMappings && "vũng tàu" in CityMappings
    ensures CityMappings["vung tau"] == CityMappings["vũng tàu"]
  {
  }

  lemma StripVungTau(k: string)
    requires k == "vũng tàu"
    ensures RemoveVietnameseDiacritics(k) == "vung tau"
  {
    assert k == "v" + ['ũ'] + "ng t" + ['à'] + "u";
    StripTwoLetters("v", 'ũ', "ng t", 'à', "u");
  }

  lemma AgreesDaLat(k: string)
    requires k == "đà lạt"
    ensures RemoveVietnameseDiacritics(k) in CityMappings
    ensures CityMappings[RemoveVietnameseDiacritics(k)] == CityMappings[k]
  {
    StripDaLat(k);
    PairDaLat();
  }

  lemma PairDaLat()
    ensures "da lat" in CityMappings && "đà lạt" in CityMappings
    ensures CityMappings["da lat"] == CityMappings["đà lạt"]
  {
  }

  lemma StripDaLat(k: string)
    requires k == "đà lạt"
    ensures RemoveVietnameseDiacritics(k) == "da lat"
  {
    var head, tail := k[..1], k[1..];
    assert head == ['đ'] && tail == "à lạt";
    StrokeAlone(head);
    StripDaLatTail(tail);
    assert k == head + tail;
    StripJoin(head, ['d'], tail, "a lat");
  }

  lemma StripDaLatTail(r: string)
    requires r == "à lạt"
    ensures RemoveVietnameseDiacritics(r) == "a lat"
  {
    assert r == "" + ['à'] + " l" + ['ạ'] + "t";
    StripTwoLetters("", 'à', " l", 'ạ', "t");
  }

  lemma AgreesBienHoa(k: string)
    requires k == "biên hòa"
    ensures RemoveVietnameseDiacritics(k) in CityMappings
    ensures CityMappings[RemoveVietnameseDiacritics(k)] == CityMappings[k]
  {
    StripBienHoa(k);
    PairBienHoa();
  }

  lemma PairBienHoa()
    ensures "bien hoa" in CityMappings && "biên hòa" in CityMappings
    ensures CityMappings["bien hoa"] == CityMappings["biên hòa"]
  {
  }

  lemma StripBienHoa(k: string)
    requires k == "biên hòa"
    ensures RemoveVietnameseDiacritics(k) == "bien hoa"
  {
    assert k == "bi" + ['ê'] + "n h" + ['ò'] + "a";
    StripTwoLetters("bi", 'ê', "n h", 'ò', "a");
  }

  lemma AgreesQuyNhon(k: string)
    requires k == "quy nhơn"
    ensures RemoveVietnameseDiacritics(k) in CityMappings
    ensures CityMappings[RemoveVietnameseDiacritics(k)] == CityMappings[k]
  {
    StripQuyNhon(k);
    PairQuyNhon();
  }

  lemma PairQuyNhon()
    ensures "quy nhon" in CityMappings && "quy nhơn" in CityMappings
    ensures CityMappings["quy nhon"] == CityMappings["quy nhơn"]
  {
  }

  lemma StripQuyNhon(k: string)
    requires k == "quy nhơn"
    ensures RemoveVietnameseDiacritics(k) == "quy nhon"
  {
    assert k == "quy nh" + ['ơ'] + "n";
    StripOneLetter("quy nh", 'ơ', "n");
  }

  /** An ASCII spelling that is no alias is passed on exactly as typed. */
  lemma NormalizeUnknownAscii(city: string)
    requires Trim(ToLower(city)) !in CityMappings && IsAscii(Trim(ToLower(city)))
    ensures NormalizeCityName(city) == city
  {
    var key := Trim(ToLower(city));
    RemoveDiacriticsOfAscii(key);
  }

  /** Case and surrounding blanks do not matter. */
  lemma NormalizeUpperCaseAlias(city: string)
    requires city == "  HÀ NỘI "
    ensures NormalizeCityName(city) == "Hanoi"
  {
    UpperCaseAliasKey(city);
    AccentedHaNoiKey();
  }

  lemma AccentedHaNoiKey()
    ensures "hà nội" in CityMappings && CityMappings["hà nội"] == "Hanoi"
  {
  }

  lemma UpperCaseAliasKey(city: string)
    requires city == "  HÀ NỘI "
    ensures Trim(ToLower(city)) == "hà nội"
  {
    assert ToLower(city) == "  " + "hà nội" + " ";
    TrimSurrounded("  ", "hà nội", " ");
  }

  /** A spelling that matches no alias as typed is found through its
      diacritic-free form. */
  lemma NormalizeMixedSpelling(city: string)
    requires city == "Hà Noi"
    ensures NormalizeCityName(city) == "Hanoi"
  {
    MixedSpellingKey(city);
    MixedSpellingStripped(Trim(ToLower(city)));
    MixedSpellingLookup(city);
  }

  lemma MixedSpellingKey(city: string)
    requires city == "Hà Noi"
    ensures Trim(ToLower(city)) == "hà noi"
  {
    assert ToLower(city) == "hà noi";
    TrimmedIsFixed("hà noi");
  }

  lemma MixedSpellingLookup(city: string)
    requires Trim(ToLower(city)) !in CityMappings
    requires RemoveVietnameseDiacritics(Trim(ToLower(city))) == "ha noi"
    ensures NormalizeCityName(city) == "Hanoi"
  {
    HaNoiKey();
  }

  lemma HaNoiKey()
    ensures "ha noi" in CityMappings && CityMappings["ha noi"] == "Hanoi"
  {
  }

  lemma MixedSpellingStripped(key: string)
    requires key == "hà noi"
    ensures key !in CityMappings && RemoveVietnameseDiacritics(key) == "ha noi"
  {
    assert key == "h" + ['à'] + " noi";
    assert Nfd.Decompose('à') == "a\U{300}";
    StripOneLetter("h", 'à', " noi");
  }

  /** A city outside the table is passed on exactly as typed. */
  lemma NormalizeUnknownCity(city: string)
    requires city == " London "
    ensures NormalizeCityName(city) == city
  {
    assert ToLower(city) == " " + "london" + " ";
    TrimSurrounded(" ", "london", " ");
    UnknownCityKey(Trim(ToLower(city)));
    NormalizeUnknownAscii(city);
  }

  lemma UnknownCityKey(key: string)
    requires key == "london"
    ensures key !in CityMappings && IsAscii(key)
  {
  }

  // ---------------------------------------------------------------------------
  // The alias lookup as the source writes it
  // ---------------------------------------------------------------------------

  /** The JavaScript values a property read `CITY_MAPPINGS[key]` can yield:
      an own string value, a member inherited from Object.prototype (a
      method, or the prototype itself for `__proto__`), or `undefined`. */
  datatype JsValue = Undefined | Str(s: string) | PrototypeMethod(name: string) | ObjectPrototype

  /** The property names every plain object inherits from Object.prototype. */
  const ObjectPrototypeNames: set<string> := {
    "constructor", "__proto__", "__defineGetter__", "__defineSetter__",
    "__lookupGetter__", "__lookupSetter__", "hasOwnProperty", "isPrototypeOf",
    "propertyIsEnumerable", "toLocaleString", "toString", "valueOf"
  }

  /** JavaScript truthiness of such a value. */
  predicate Truthy(v: JsValue) {
    match v
    case Undefined => false
    case Str(s) => s != ""
    case _ => true
  }

  /** `CITY_MAPPINGS[key]` on the object literal: own keys first, then the
      prototype chain. */
  function ObjectLiteralGet(key: string): (v: JsValue)
    ensures key in CityMappings ==> v == Str(CityMappings[key])
    ensures key !in CityMappings && key !in ObjectPrototypeNames ==> v == Undefined
    ensures key !in CityMappings && key in ObjectPrototypeNames ==> Truthy(v) && !v.Str?
  {
    if key in CityMappings then Str(CityMappings[key])
    else if key == "__proto__" then ObjectPrototype
    else if key in ObjectPrototypeNames then PrototypeMethod(key)
    else Undefined
  }

  /** normalizeCityName exactly as written: truthiness tests on object-literal
      property reads. */
  function NormalizeCityNameAsWritten(city: string): (v: JsValue)
    ensures v == Str(city) || Truthy(v)
    ensures v.Str? ==> v.s == city || v.s in CityMappings.Values
  {
    var lowerCity := Trim(ToLower(city));
    if Truthy(ObjectLiteralGet(lowerCity)) then ObjectLiteralGet(lowerCity)
    else
      var withoutDiacritics := RemoveVietnameseDiacritics(lowerCity);
      if Truthy(ObjectLiteralGet(withoutDiacritics)) then ObjectLiteralGet(withoutDiacritics)
      else Str(city)
  }

  /** As written, a city whose lower-cased, trimmed form names a member of
      Object.prototype ("Constructor", " __proto__") normalises to that
      member, a function or an object rather than a string, and that value is
      what the request URL is built from; the own-key lookup returns the
      input unchanged. */
  lemma PrototypeKeyFinding(city: string)
    requires Trim(ToLower(city)) in ObjectPrototypeNames
    ensures var v := NormalizeCityNameAsWritten(city); Truthy(v) && !v.Str?
    ensures NormalizeCityName(city) == city
  {
    var key := Trim(ToLower(city));
    PrototypeNamesAreNoAliases(key);
    RemoveDiacriticsOfAscii(key);
  }

  /** No name of Object.prototype is an alias, and all of them are ASCII. */
  lemma PrototypeNamesAreNoAliases(key: string)
    requires key in ObjectPrototypeNames
    ensures key !in CityMappings && IsAscii(key)
  {
    if key in ["constructor", "__proto__"] {
      PrototypeNames1(key);
    } else if key in ["__defineGetter__", "__defineSetter__"] {
      PrototypeNames2(key);
    } else if key in ["__lookupGetter__", "__lookupSetter__"] {
      PrototypeNames3(key);
    } else if key in ["hasOwnProperty", "isPrototypeOf"] {
      PrototypeNames4(key);
    } else if key == "propertyIsEnumerable" {
      PrototypeNames5(key);
    } else if key == "toLocaleString" {
      PrototypeNames6(key);
    } else {
      PrototypeNames7(key);
    }
  }

  /** The names of Object.prototype, a few at a time to keep each proof small. */
  lemma PrototypeNames1(key: string)
    requires key in ["constructor", "__proto__"]
    ensures key !in CityMappings && IsAscii(key)
  {
  }

  lemma PrototypeNames2(key: string)
    requires key in ["__defineGetter__", "__defineSetter__"]
    ensures key !in CityMappings && IsAscii(key)
  {
  }

  lemma PrototypeNames3(key: string)
    requires key in ["__lookupGetter__", "__lookupSetter__"]
    ensures key !in CityMappings && IsAscii(key)
  {
  }

  lemma PrototypeNames4(key: string)
    requires key in ["hasOwnProperty", "isPrototypeOf"]
    ensures key !in CityMappings && IsAscii(key)
  {
  }

  lemma PrototypeNames5(key: string)
    requires key == "propertyIsEnumerable"
    ensures key !in CityMappings && IsAscii(key)
  {
  }

  lemma PrototypeNames6(key: string)
    requires key == "toLocaleString"
    ensures key !in CityMappings && IsAscii(key)
  {
  }

  lemma PrototypeNames7(key: string)
    requires key in ["toString", "valueOf"]
    ensures key !in CityMappings && IsAscii(key)
  {
  }

  /** "Constructor" is such a city. */
  lemma ConstructorIsPrototypeKey(city: string)
    requires city == "Constructor"
    ensures Trim(ToLower(city)) == "constructor"
  {
    assert ToLower(city) == "constructor";
    TrimmedIsFixed("constructor");
  }

  /** Away from those keys the source's lookup and the own-key lookup agree. */
  lemma AsWrittenAgreesOffPrototypeKeys(city: string)
    requires Trim(ToLower(city)) !in ObjectPrototypeNames
    requires RemoveVietnameseDiacritics(Trim(ToLower(city))) !in ObjectPrototypeNames
    ensures NormalizeCityNameAsWritten(city) == Str(NormalizeCityName(city))
  {
    AliasValuesAreNonEmpty();
  }

  /** Every alias maps to a non-empty name, so an own value is always truthy. */
  lemma AliasValuesAreNonEmpty()
    ensures forall k :: k in CityMappings ==> CityMappings[k] != ""
  {
    CanonicalNamesAreTheValues();
  }

  // ---------------------------------------------------------------------------
  // From a fetch outcome to the service response
  // ---------------------------------------------------------------------------

  /** A thrown JavaScript error: whether it is a TypeError, and its message
      (React Native's fetch rejects with TypeError "Network request failed"
      when there is no connection; `response.json()` throws a SyntaxError on
      a body that is not JSON). */
  datatype JsError = JsError(isTypeError: bool, message: string)

  /** The parsed JSON body: an object, read as the payload (`data as
      WeatherData`) or, on an error status, as an ApiError through its
      optional `message`; or the JSON literal `null`. */
  datatype Body<T> = Body(data: T, message: Option<string>) | NullBody

  /** What `await response.json()` did. */
  datatype Parsed<T> = Parsed(body: Body<T>) | ParseFailed(err: JsError)

  /** What `await fetch(url)` did: rejected, or answered with a status. */
  datatype FetchOutcome<T> = Rejected(err: JsError) | Responded(status: int, json: Parsed<T>)

  /** WeatherResponse / ForecastResponse: `{ success, data?, error? }`. */
  datatype ApiResponse<T> = ApiResponse(success: bool, data: Option<T>, error: Option<string>)

  /** The three texts in which the two fetch functions differ. */
  datatype Messages = Messages(notFound: string, apiFallback: string, noConnection: string)

  /** The stems the two functions share; each adds its own ending. */
  const CityNotFound := "Không tìm thấy thành phố"
  const ErrorOccurred := "Đã xảy ra lỗi"
  const NoConnection := "Không có kết nối Internet"

  const CurrentWeatherMessages := Messages(
    CityNotFound + ". Vui lòng kiểm tra lại tên.",
    ErrorOccurred + " khi lấy dữ liệu thời tiết.",
    NoConnection + ". Vui lòng kiểm tra mạng.")

  const ForecastMessages := Messages(
    CityNotFound + ".",
    ErrorOccurred + ".",
    NoConnection + ".")

  /** The text of every other caught exception, shared by both functions. */
  const RetryLaterMessage := ErrorOccurred + ". Vui lòng thử lại sau."

  /** `response.ok`: a 2xx status. */
  predicate IsOk(status: int) {
    200 <= status <= 299
  }

  /** How a request failed: a 404, a network rejection, another error
      status, or any other exception; None when it succeeded. */
  datatype ErrorKind = NotFound | NetworkUnavailable | ApiError | Unknown

  function KindOf<T>(outcome: FetchOutcome<T>): (k: Option<ErrorKind>) {
    match outcome
    case Rejected(e) =>
      if e.isTypeError && Contains(e.message, "Network") then Some(NetworkUnavailable) else Some(Unknown)
    case Responded(status, json) =>
      if json.ParseFailed? then
        (if json.err.isTypeError && Contains(json.err.message, "Network") then Some(NetworkUnavailable) else Some(Unknown))
      else if IsOk(status) then None
      else if status == 404 then Some(NotFound)
      else if json.body.NullBody? then Some(Unknown)
      else Some(ApiError)
  }

  /** The catch block: a failure without data whose text is the
      no-connection one for a network TypeError and the retry-later one
      otherwise. */
  function Caught<T>(e: JsError, msgs: Messages): (r: ApiResponse<T>)
    ensures !r.success && r.data == None && r.error.Some?
    ensures r.error.value == msgs.noConnection || r.error.value == RetryLaterMessage
  {
    if e.isTypeError && Contains(e.message, "Network") then ApiResponse(false, None, Some(msgs.noConnection))
    else ApiResponse(false, None, Some(RetryLaterMessage))
  }

  /** The try block after `fetch`: parse the body first, then branch on the
      status. */
  function ToResponse<T>(outcome: FetchOutcome<T>, msgs: Messages): (r: ApiResponse<T>)
    ensures r.success <==> outcome.Responded? && outcome.json.Parsed? && IsOk(outcome.status)
    ensures r.data.Some? <==> r.success && outcome.json.body.Body?
    ensures r.data.Some? ==> r.data.value == outcome.json.body.data
    ensures r.success <==> r.error == None
    ensures KindOf(outcome) == Some(NotFound) ==> r.error == Some(msgs.notFound)
    ensures KindOf(outcome) == Some(ApiError) ==>
              r.error == Some(match outcome.json.body.message
                              case Some(m) => if m != "" then m else msgs.apiFallback
                              case None => msgs.apiFallback)
    ensures KindOf(outcome) == Some(NetworkUnavailable) ==> r.error == Some(msgs.noConnection)
    ensures KindOf(outcome) == Some(Unknown) ==> r.error == Some(RetryLaterMessage)
  {
    match outcome
    case Rejected(e) => Caught(e, msgs)
    case Responded(status, json) =>
      match json
      case ParseFailed(e) => Caught(e, msgs)
      case Parsed(body) =>
        if !IsOk(status) then
          if status == 404 then ApiResponse(false, None, Some(msgs.notFound))
          else if body.NullBody? then
            // Reading `message` of null throws a TypeError that does not
            // mention the network, which the catch block turns into the
            // retry-later text.
            ApiResponse(false, None, Some(RetryLaterMessage))
          else
            var message := match body.message
                           case Some(m) => if m != "" then m else msgs.apiFallback
                           case None => msgs.apiFallback;
            ApiResponse(false, None, Some(message))
        else if body.NullBody? then ApiResponse(true, None, None)
        else ApiResponse(true, Some(body.data), None)
  }

  /** A body that cannot be parsed is a generic failure even on a 404: the
      parse runs before the status is looked at. */
  lemma UnparsableNotFound<T>(e: JsError)
    requires !e.isTypeError
    ensures ToResponse<T>(Responded(404, ParseFailed(e)), CurrentWeatherMessages)
            == ApiResponse(false, None, Some(RetryLaterMessage))
  {
  }

  /** A `null` body on an ok status is a success without data; on an
      error status other than 404 it gives the retry-later text. */
  lemma NullBodyResponses<T>(status: int, msgs: Messages)
    ensures IsOk(status) ==> ToResponse<T>(Responded(status, Parsed(NullBody)), msgs) == ApiResponse(true, None, None)
    ensures !IsOk(status) && status != 404 ==>
              ToResponse<T>(Responded(status, Parsed(NullBody)), msgs) == ApiResponse(false, None, Some(RetryLaterMessage))
  {
  }

  /** A failed response carries one of the fixed texts or the API's own
      non-empty message. */
  lemma ErrorTextIsKnown<T>(outcome: FetchOutcome<T>, msgs: Messages)
    requires msgs.notFound != "" && msgs.apiFallback != "" && msgs.noConnection != ""
    ensures var r := ToResponse(outcome, msgs);
            !r.success ==>
              && r.error.Some? && r.error.value != ""
              && (|| r.error.value in {msgs.notFound, msgs.apiFallback, msgs.noConnection, RetryLaterMessage}
                  || KindOf(outcome) == Some(ApiError))
  {
  }

  /** getCurrentWeather: normalise, fetch, map. Its error text is always one
      of its fixed texts or the API's own non-empty message. */
  function GetCurrentWeather(city: string, fetch: string -> FetchOutcome<WeatherData>): (r: ApiResponse<WeatherData>)
    ensures r.data.Some? ==> r.success
    ensures r.success <==> r.error == None
    ensures !r.success ==>
              && r.error.Some? && r.error.value != ""
              && (|| r.error.value in {CurrentWeatherMessages.notFound, CurrentWeatherMessages.apiFallback,
                                       CurrentWeatherMessages.noConnection, RetryLaterMessage}
                  || KindOf(fetch(NormalizeCityName(city))) == Some(ApiError))
  {
    var outcome := fetch(NormalizeCityName(city));
    ErrorTextIsKnown(outcome, CurrentWeatherMessages);
    ToResponse(outcome, CurrentWeatherMessages)
  }

  /** getForecastWeather: the same shape with the forecast texts. */
  function GetForecastWeather(city: string, fetch: string -> FetchOutcome<ForecastData>): (r: ApiResponse<ForecastData>)
    ensures r.data.Some? ==> r.success
    ensures r.success <==> r.error == None
    ensures !r.success ==>
              && r.error.Some? && r.error.value != ""
              && (|| r.error.value in {ForecastMessages.notFound, ForecastMessages.apiFallback,
                                       ForecastMessages.noConnection, RetryLaterMessage}
                  || KindOf(fetch(NormalizeCityName(city))) == Some(ApiError))
  {
    var outcome := fetch(NormalizeCityName(city));
    ErrorTextIsKnown(outcome, ForecastMessages);
    ToResponse(outcome, ForecastMessages)
  }

  // ---------------------------------------------------------------------------
  // Icon URL and day/night
  // ---------------------------------------------------------------------------

  const IconUrlPrefix := "https://openweathermap.org/img/wn/"
  const IconUrlSuffix := "@4x.png"

  /** getWeatherIconUrl. */
  function WeatherIconUrl(iconCode: string): (url: string)
    ensures |url| == |IconUrlPrefix| + |iconCode| + |IconUrlSuffix|
  {
    IconUrlPrefix + iconCode + IconUrlSuffix
  }

  /** The inverse: the icon code inside such a URL, if it is one. */
  function IconCodeOf(url: string): Option<string> {
    if |url| >= |IconUrlPrefix| + |IconUrlSuffix|
       && url[..|IconUrlPrefix|] == IconUrlPrefix
       && url[|url| - |IconUrlSuffix|..] == IconUrlSuffix
    then Some(url[|IconUrlPrefix|..|url| - |IconUrlSuffix|])
    else None
  }

  /** Stripping the prefix and suffix recovers the code, and only icon URLs
      have a code. */
  lemma IconUrlRoundTrip(iconCode: string, url: string)
    ensures IconCodeOf(WeatherIconUrl(iconCode)) == Some(iconCode)
    ensures IconCodeOf(url) == Some(iconCode) ==> WeatherIconUrl(iconCode) == url
  {
    var u := WeatherIconUrl(iconCode);
    assert u[..|IconUrlPrefix|] == IconUrlPrefix;
    assert u[|u| - |IconUrlSuffix|..] == IconUrlSuffix;
    assert u[|IconUrlPrefix|..|u| - |IconUrlSuffix|] == iconCode;
    if IconCodeOf(url) == Some(iconCode) {
      assert url == url[..|IconUrlPrefix|] + url[|IconUrlPrefix|..|url| - |IconUrlSuffix|] + url[|url| - |IconUrlSuffix|..];
    }
  }

  /** isNightTime: night is strictly before sunrise or strictly after
      sunset; both instants count as day. */
  function IsNightTime(currentTime: int, sunrise: int, sunset: int): (night: bool)
    ensures night <==> !(sunrise <= currentTime <= sunset)
  {
    currentTime < sunrise || currentTime > sunset
  }
}
