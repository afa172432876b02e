/** The weather view: its input and result fields, the bounded history of
    recent readings and the two display classifiers. */
module WeatherComponent {
  import opened Optional
  import opened Text
  import opened WeatherService

  /** How many readings the history keeps. */
  const MaxHistory := 5

  const BlankCityError := "Please enter a city name"


  // ---------------------------------------------------------------------------
  // The history of readings

  /** Two readings are for the same place when their locations agree ignoring case. */
  predicate SameLocation(a: WeatherData, b: WeatherData) {
    SameIgnoringCase(a.location, b.location)
  }

  /** Some entry of `h` is for the same place as `w` (the `some` test). */
  predicate InHistory(h: seq<WeatherData>, w: WeatherData)
    ensures w in h ==> InHistory(h, w)
    ensures h == [] ==> !InHistory(h, w)
  {
    exists i :: 0 <= i < |h| && SameLocation(h[i], w)
  }

  /** The history invariant: at most five entries, no two for the same place. */
  predicate HistoryValid(h: seq<WeatherData>) {
    && |h| <= MaxHistory
    && forall i, j :: 0 <= i < j < |h| ==> !SameLocation(h[i], h[j])
  }

  /** The history after a reading arrives. A place already present leaves the
      history untouched (the stored reading is kept, not refreshed); a new place
      goes in front of the old entries, and the last entry falls off when the
      history would otherwise exceed five entries. */
  function HistoryAfter(h: seq<WeatherData>, w: WeatherData): (r: seq<WeatherData>)
    ensures InHistory(h, w) ==> r == h
    ensures !InHistory(h, w) ==> |r| == (if |h| < MaxHistory then |h| + 1 else |h|)
    ensures !InHistory(h, w) ==> r[0] == w && r[1..] == h[..|r| - 1]
  {
    if InHistory(h, w) then h
    else
      var u := [w] + h;
      if |u| > MaxHistory then u[..|u| - 1] else u
  }

  /** A new reading keeps the history invariant. */
  lemma HistoryAfterValid(h: seq<WeatherData>, w: WeatherData)
    requires HistoryValid(h)
    ensures HistoryValid(HistoryAfter(h, w))
  {
    var r := HistoryAfter(h, w);
    if !InHistory(h, w) {
      forall i, j | 0 <= i < j < |r| ensures !SameLocation(r[i], r[j]) {
        assert r[j] == h[j - 1];
        if i == 0 {
          assert !SameLocation(h[j - 1], w);
        } else {
          assert r[i] == h[i - 1];
        }
      }
    }
  }

  /** After a reading, the history holds an entry for its place. */
  lemma HistoryAfterHasPlace(h: seq<WeatherData>, w: WeatherData)
    ensures InHistory(HistoryAfter(h, w), w)
  {
    if !InHistory(h, w) {
      assert SameLocation(HistoryAfter(h, w)[0], w);
    }
  }

  /** The history built from a whole series of readings, oldest first. */
  function HistoryOf(ws: seq<WeatherData>): (h: seq<WeatherData>)
  {
    if ws == [] then [] else HistoryAfter(HistoryOf(ws[..|ws| - 1]), ws[|ws| - 1])
  }

  /** Whatever the readings, the history never breaks the invariant, and it only
      holds readings that arrived. */
  lemma {:induction false} HistoryOfValid(ws: seq<WeatherData>)
    ensures HistoryValid(HistoryOf(ws))
    ensures forall x :: x in HistoryOf(ws) ==> x in ws
  {
    if ws != [] {
      var init := ws[..|ws| - 1];
      HistoryOfValid(init);
      HistoryAfterValid(HistoryOf(init), ws[|ws| - 1]);
      forall x | x in HistoryOf(ws) ensures x in ws {
        if x != ws[|ws| - 1] {
          assert x in HistoryOf(init);
          assert x in init;
        }
      }
    }
  }

  /** Searching "Paris" and then "paris" keeps one entry: the first reading. */
  lemma RepeatedCityKeepsFirstReading(first: WeatherData, second: WeatherData)
    requires first.location == "Paris" && second.location == "paris"
    ensures HistoryOf([first, second]) == [first]
  {
    assert [first, second][..1] == [first];
    assert [first][..0] == [];
    assert HistoryOf([first]) == [first];
    assert Lower("Paris") == Lower("paris");
    assert SameLocation([first][0], second);
  }

  /** The `some` scan: whether `h` already has an entry for the place of `w`. */
  method HasLocation(h: seq<WeatherData>, w: WeatherData) returns (found: bool)
    ensures found <==> InHistory(h, w)
  {
    var key := Lower(w.location);
    found := false;
    var i := 0;
    while i < |h| && !found
      invariant 0 <= i <= |h|
      invariant found <==> exists k :: 0 <= k < i && SameLocation(h[k], w)
    {
      found := Lower(h[i].location) == key;
      i := i + 1;
    }
  }

  // ---------------------------------------------------------------------------
  // Display classifiers

  datatype TemperatureClass = TempCold | TempCool | TempWarm | TempHot {
    /** Position on the cold-to-hot scale. */
    function Rank(): nat {
      match this
      case TempCold => 0
      case TempCool => 1
      case TempWarm => 2
      case TempHot => 3
    }
  }

  /** The CSS class for a temperature: cold below 10, cool below 20, warm below
      30, hot from 30 on. */
  function GetTemperatureClass(temp: int): (c: TemperatureClass)
    ensures c == TempCold <==> temp < 10
    ensures c == TempCool <==> 10 <= temp < 20
    ensures c == TempWarm <==> 20 <= temp < 30
    ensures c == TempHot <==> 30 <= temp
  {
    if temp < 10 then TempCold
    else if temp < 20 then TempCool
    else if temp < 30 then TempWarm
    else TempHot
  }

  /** A higher temperature never gets a colder class. */
  lemma TemperatureClassMonotone(t: int, u: int)
    requires t <= u
    ensures GetTemperatureClass(t).Rank() <= GetTemperatureClass(u).Rank()
  {
  }

  /** The keyword rules, tried in order on the lower-cased description. */
  const IconRules: seq<(string, Icon)> :=
    [("sunny", Sun), ("clear", Sun), ("cloud", Cloud), ("rain", Rain), ("snow", Snow), ("storm", Storm)]

  /** The icon of the first rule whose keyword occurs in `d`, else the default. */
  function FirstMatchingIcon(rules: seq<(string, Icon)>, d: string): Icon {
    if rules == [] then SunBehindCloud
    else if Contains(d, rules[0].0) then rules[0].1
    else FirstMatchingIcon(rules[1..], d)
  }

  /** The icon for a description. */
  function GetWeatherIcon(description: string): (i: Icon)
    ensures i == Sun <==> Contains(Lower(description), "sunny") || Contains(Lower(description), "clear")
    ensures i == Cloud ==> Contains(Lower(description), "cloud")
    ensures i == Rain ==> Contains(Lower(description), "rain")
    ensures i == Snow ==> Contains(Lower(description), "snow")
    ensures i == Storm ==> Contains(Lower(description), "storm")
    ensures i == SunBehindCloud <==>
              forall keyword :: keyword in ["sunny", "clear", "cloud", "rain", "snow", "storm"] ==> !Contains(Lower(description), keyword)
  {
    var d := Lower(description);
    if Contains(d, "sunny") || Contains(d, "clear") then Sun
    else if Contains(d, "cloud") then Cloud
    else if Contains(d, "rain") then Rain
    else if Contains(d, "snow") then Snow
    else if Contains(d, "storm") then Storm
    else SunBehindCloud
  }

  /** The if-chain agrees with the ordered rule table. */
  lemma WeatherIconFollowsRules(description: string)
    ensures GetWeatherIcon(description) == FirstMatchingIcon(IconRules, Lower(description))
  {
    var d := Lower(description);
    var rs := IconRules;
    assert rs[6..] == [];
    assert rs[5..][1..] == rs[6..] && rs[5..][0] == ("storm", Storm);
    assert rs[4..][1..] == rs[5..] && rs[4..][0] == ("snow", Snow);
    assert rs[3..][1..] == rs[4..] && rs[3..][0] == ("rain", Rain);
    assert rs[2..][1..] == rs[3..] && rs[2..][0] == ("cloud", Cloud);
    assert rs[1..][1..] == rs[2..] && rs[1..][0] == ("clear", Sun);
    assert FirstMatchingIcon(rs[5..], d) == if Contains(d, "storm") then Storm else SunBehindCloud;
    assert FirstMatchingIcon(rs[4..], d) == if Contains(d, "snow") then Snow else FirstMatchingIcon(rs[5..], d);
    assert FirstMatchingIcon(rs[3..], d) == if Contains(d, "rain") then Rain else FirstMatchingIcon(rs[4..], d);
    assert FirstMatchingIcon(rs[2..], d) == if Contains(d, "cloud") then Cloud else FirstMatchingIcon(rs[3..], d);
    assert FirstMatchingIcon(rs[1..], d) == if Contains(d, "clear") then Sun else FirstMatchingIcon(rs[2..], d);
  }

  /** "Sunny" gets the sun. */
  lemma SunnyIcon()
    ensures GetWeatherIcon("Sunny") == Sun
  {
    assert Lower("Sunny") == "sunny";
    ContainsAt("sunny", "sunny", 0);
  }

  /** A description with "cloud" but neither "sunny" nor "clear" gets the cloud. */
  lemma CloudIconWhen(description: string)
    requires !Contains(Lower(description), "sunny") && !Contains(Lower(description), "clear")
    requires Contains(Lower(description), "cloud")
    ensures GetWeatherIcon(description) == Cloud
  {
  }

  /** "Cloudy" gets the cloud. */
  lemma CloudyIcon()
    ensures GetWeatherIcon("Cloudy") == Cloud
  {
    assert Lower("Cloudy") == "cloudy";
    NotContainsMissingChar("cloudy", "sunny", 's');
    NotContainsMissingChar("cloudy", "clear", 'e');
    ContainsAt("cloudy", "cloud", 0);
    CloudIconWhen("Cloudy");
  }

  /** "Rainy" gets the rain cloud. */
  lemma RainyIcon()
    ensures GetWeatherIcon("Rainy") == Rain
  {
    assert Lower("Rainy") == "rainy";
    NotContainsMissingChar("rainy", "sunny", 's');
    NotContainsMissingChar("rainy", "clear", 'c');
    NotContainsMissingChar("rainy", "cloud", 'c');
    ContainsAt("rainy", "rain", 0);
  }

  lemma LowerPartlyCloudy(description: string)
    requires description == "Partly Cloudy"
    ensures Lower(description) == "partly cloudy"
  {
  }

  /** "partly cloudy" has neither "sunny" nor "clear" in it ... */
  lemma PartlyCloudyNotSunny(d: string)
    requires d == "partly cloudy"
    ensures !Contains(d, "sunny") && !Contains(d, "clear")
  {
    NotContainsMissingChar(d, "sunny", 's');
    NotContainsMissingChar(d, "clear", 'e');
  }

  /** ... but it has "cloud", at index 7. */
  lemma PartlyCloudyHasCloud(d: string)
    requires d == "partly cloudy"
    ensures Contains(d, "cloud")
  {
    var cloud := d[7..12];
    assert cloud[0] == 'c' && cloud[1] == 'l' && cloud[2] == 'o' && cloud[3] == 'u' && cloud[4] == 'd';
    assert cloud == "cloud";
    ContainsAt(d, "cloud", 7);
  }

  /** "Partly Cloudy" gets the cloud: "cloud" is tested before any later keyword. */
  lemma PartlyCloudyIcon(description: string)
    requires description == "Partly Cloudy"
    ensures GetWeatherIcon(description) == Cloud
  {
    LowerPartlyCloudy(description);
    PartlyCloudyNotSunny(Lower(description));
    PartlyCloudyHasCloud(Lower(description));
    CloudIconWhen(description);
  }

  // ---------------------------------------------------------------------------
  // The component

  class WeatherComponent {
    /** The injected service, shared by every view. */
    const service: WeatherService
    var currentWeather: Option<WeatherData>
    var loading: bool
    var error: Option<string>
    var cityName: string
    var weatherHistory: seq<WeatherData>
    /** Whether the view has subscribed to the service's readings (done in `OnInit`). */
    var subscribed: bool

    ghost predicate Valid()
      reads this`weatherHistory
    {
      HistoryValid(weatherHistory)
    }

    constructor (service: WeatherService)
      ensures this.service == service
      ensures currentWeather == None && !loading && error == None
      ensures cityName == "New York" && weatherHistory == [] && !subscribed
      ensures Valid()
    {
      this.service := service;
      currentWeather := None;
      loading := false;
      error := None;
      cityName := "New York";
      weatherHistory := [];
      subscribed := false;
    }

    /** What fetching the weather for `city` leaves behind: a blank name only
        sets the error message and requests nothing; otherwise the service
        publishes a fresh reading for the trimmed name, which becomes the
        current weather and (once subscribed) enters the history. */
    twostate predicate Fetched(city: string)
      reads this, service
    {
      && cityName == city
      && subscribed == old(subscribed)
      && (IsBlank(city) ==>
            && error == Some(BlankCityError)
            && loading == old(loading)
            && currentWeather == old(currentWeather)
            && weatherHistory == old(weatherHistory)
            && service.current == old(service.current))
      && (!IsBlank(city) ==>
            && service.current.Some?
            && IsMockReading(Trim(city), service.current.value)
            && currentWeather == service.current
            && !loading
            && error == None
            && weatherHistory == (if subscribed then HistoryAfter(old(weatherHistory), service.current.value)
                                  else old(weatherHistory)))
    }

    /** First fetch, then the subscription, which replays the service's latest
        reading (if any) to the subscriber at once. */
    method OnInit()
      requires Valid() && !subscribed
      modifies this, service
      ensures Valid() && subscribed && cityName == old(cityName)
      ensures IsBlank(old(cityName)) ==>
                error == Some(BlankCityError) && loading == old(loading) && service.current == old(service.current)
      ensures !IsBlank(old(cityName)) ==>
                service.current.Some? && IsMockReading(Trim(old(cityName)), service.current.value)
                && !loading && error == None
      ensures service.current.Some? ==>
                currentWeather == service.current
                && weatherHistory == HistoryAfter(old(weatherHistory), service.current.value)
      ensures service.current.None? ==>
                currentWeather == old(currentWeather) && weatherHistory == old(weatherHistory)
    {
      GetWeather();
      subscribed := true;
      Notify(service.current);
    }

    /** The subscriber: a published reading becomes the current weather and is
        offered to the history; a `null` value is ignored. */
    method Notify(weather: Option<WeatherData>)
      requires Valid()
      modifies this`currentWeather, this`weatherHistory
      ensures Valid()
      ensures weather.Some? ==>
                currentWeather == weather && weatherHistory == HistoryAfter(old(weatherHistory), weather.value)
      ensures weather.None? ==>
                currentWeather == old(currentWeather) && weatherHistory == old(weatherHistory)
    {
      if weather.Some? {
        currentWeather := weather;
        AddToHistory(weather.value);
      }
    }

    /** Rejects a blank city name; otherwise requests a reading for the trimmed
        name. The mock service publishes synchronously, so the subscriber (once
        subscribed) runs before the request's own success handler. */
    method GetWeather()
      requires Valid()
      modifies this, service
      ensures Valid() && Fetched(old(cityName))
    {
      if IsBlank(cityName) {
        error := Some(BlankCityError);
        return;
      }
      loading := true;
      error := None;
      var weather := service.GetWeather(Trim(cityName));
      if subscribed {
        Notify(Some(weather));
      }
      currentWeather := Some(weather);
      loading := false;
      error := None;
    }

    /** The search form's submit handler. */
    method OnSearchWeather()
      requires Valid()
      modifies this, service
      ensures Valid() && Fetched(old(cityName))
    {
      GetWeather();
    }

    method OnCitySelect(city: string)
      requires Valid()
      modifies this, service
      ensures Valid() && Fetched(city)
    {
      cityName := city;
      GetWeather();
    }

    /** Puts a new reading in front of the history unless its place is already
        there, dropping the oldest entry beyond five. */
    method AddToHistory(weather: WeatherData)
      requires Valid()
      modifies this`weatherHistory
      ensures Valid()
      ensures weatherHistory == HistoryAfter(old(weatherHistory), weather)
    {
      HistoryAfterValid(weatherHistory, weather);
      var present := HasLocation(weatherHistory, weather);
      if !present {
        weatherHistory := [weather] + weatherHistory;
        if |weatherHistory| > MaxHistory {
          weatherHistory := weatherHistory[..|weatherHistory| - 1];
        }
      }
    }

    method OnClearInput()
      modifies this`cityName
      ensures cityName == ""
    {
      cityName := "";
    }

    /** Fetches again for the place of the current reading; does nothing when
        there is none. */
    method OnRefresh()
      requires Valid()
      modifies this, service
      ensures Valid()
      ensures old(currentWeather).None? ==> unchanged(this) && unchanged(service)
      ensures old(currentWeather).Some? ==> Fetched(old(currentWeather).value.location)
    {
      if currentWeather.Some? {
        cityName := currentWeather.value.location;
        GetWeather();
      }
    }
  }
}
