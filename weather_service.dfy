/** The mock weather service: it synthesises a reading for a city and keeps
    the latest one in a single "current value" slot (a `BehaviorSubject`). */
module WeatherService {
  import opened Optional

  /** The weather glyphs the application shows, one constructor per glyph. */
  datatype Icon = Sun | Cloud | Rain | Snow | Storm | SunBehindCloud

  /** One weather reading. */
  datatype WeatherData = WeatherData(
    location: string,
    temperature: int,
    description: string,
    humidity: int,
    windSpeed: int,
    icon: Icon)

  /** The descriptions a mock reading picks from, in index order. */
  const Descriptions: seq<string> := ["Sunny", "Cloudy", "Rainy", "Partly Cloudy"]

  /** What every mock reading for `city` satisfies. */
  predicate IsMockReading(city: string, w: WeatherData) {
    && w.location == city
    && 5 <= w.temperature <= 34
    && w.description in Descriptions
    && 40 <= w.humidity <= 79
    && 5 <= w.windSpeed <= 19
    && w.icon == Sun
  }

  /** The reading built from the four `Math.floor(Math.random() * n)` draws,
      each given as the integer it floors to. */
  function MockReading(city: string, tempDraw: nat, descDraw: nat, humidityDraw: nat, windDraw: nat): (w: WeatherData)
    requires tempDraw < 30 && descDraw < 4 && humidityDraw < 40 && windDraw < 15
    ensures IsMockReading(city, w)
    ensures w.description == Descriptions[descDraw]
  {
    WeatherData(city, tempDraw + 5, Descriptions[descDraw], humidityDraw + 40, windDraw + 5, Sun)
  }

  /** Every reading allowed by `IsMockReading` is produced by some draws, so the
      predicate describes the generator's outcomes exactly. */
  lemma MockReadingsAreReachable(city: string, w: WeatherData)
    requires IsMockReading(city, w)
    ensures w == MockReading(city, w.temperature - 5, DescriptionIndex(w.description), w.humidity - 40, w.windSpeed - 5)
  {
  }

  /** The draw that selects description `d`. */
  function DescriptionIndex(d: string): (i: nat)
    requires d in Descriptions
    ensures i < |Descriptions| && Descriptions[i] == d
    ensures forall j :: 0 <= j < |Descriptions| && Descriptions[j] == d ==> j == i
  {
    if d == "Sunny" then 0 else if d == "Cloudy" then 1 else if d == "Rainy" then 2 else 3
  }

  class WeatherService {
    /** The value held by the `BehaviorSubject`; `None` stands for its initial `null`. */
    var current: Option<WeatherData>

    constructor ()
      ensures current == None
    {
      current := None;
    }

    /** Builds a mock reading for `city` from random draws, publishes it as the
        current value and returns it. */
    method GetWeather(city: string) returns (w: WeatherData)
      modifies this
      ensures IsMockReading(city, w)
      ensures current == Some(w)
    {
      var tempDraw: nat :| tempDraw < 30;
      var descDraw: nat :| descDraw < 4;
      var humidityDraw: nat :| humidityDraw < 40;
      var windDraw: nat :| windDraw < 15;
      w := MockReading(city, tempDraw, descDraw, humidityDraw, windDraw);
      current := Some(w);
    }

    /** The current value, read without changing anything. */
    method GetCurrentWeather() returns (w: Option<WeatherData>)
      ensures w == current
    {
      w := current;
    }
  }

  /** Publishing then reading back yields the reading just published. */
  method GetThenCurrent(service: WeatherService, city: string) returns (w: WeatherData, back: Option<WeatherData>)
    modifies service
    ensures IsMockReading(city, w) && back == Some(w)
  {
    w := service.GetWeather(city);
    back := service.GetCurrentWeather();
  }
}
