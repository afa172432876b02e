# Angular demo app: view state logic in Dafny

This project models the application logic of a small Angular demo app. It
covers the plain, sequential state handling behind four parts of the app:

- **Weather view** (`WeatherComponent`). It holds the city input, the current
  reading, a loading flag and an error message. It keeps a history of at most
  five readings, newest first, with no two readings for the same place
  (locations compared ignoring case). It also classifies temperatures into CSS
  classes and picks an icon for a description by ordered keyword rules.
- **Mock weather service** (`WeatherService`). It builds a random reading for
  a city, with each field in a fixed range. It publishes the reading into a
  single "current value" slot, which starts empty. The view reads that slot.
- **Todo view** (`TodoComponent`). It keeps an in-memory list of items. Adding
  rejects a blank title. Toggling flips the first item with a given id.
  Deleting removes every item with a given id. A filtered view and a completed
  count are read from the list.
- **Dashboard** (`DashboardComponent`). It has a click counter, a show/hide
  switch, per-feature completion flags and a derived completed count.

Files:

- `option.dfy`: the `Option` type. It stands for a nullable field and for the
  service's value slot.
- `text.dfy`: the string operations used. These are `trim`, ASCII
  `toLowerCase` and `includes`.
- `weather_service.dfy`, `weather_component.dfy`, `todo.dfy`, `dashboard.dfy`:
  one module per source file.

How the source's effects are modelled:

- `Math.random()`: the service method picks each draw nondeterministically
  (`:|`), within the range that `Math.floor(Math.random() * n)` can produce.
  `MockReading` builds the reading from those draws.
- Clocks: `Date.now()` and `new Date()` are two separate clock reads in
  `onAddTodo`. Both are parameters of `OnAddTodo`, in milliseconds.
- The `BehaviorSubject` is a field `current: Option<WeatherData>`.
- The view's subscription to the service is a flag, `subscribed`. `ngOnInit`
  fetches first and subscribes afterwards. The subject then replays its latest
  reading to the new subscriber, so `OnInit` runs the subscriber (`Notify`) once
  at the end. The mock service publishes synchronously. So once the view is
  subscribed, `GetWeather` runs the subscriber before the request's own success
  handler.
- The icon glyph strings are the `Icon` enumeration.

Behaviour of the code that is easy to misread:

- A repeated place does not refresh the history. The stored reading keeps its
  values and its position. So the history is "the first reading of each of up
  to five places, newest place first", not "the five most recent readings".
- Todo ids come from the clock. They are not unique in general, and the model
  does not claim that they are.
- The reading's own `icon` field is always the sun. The view picks the icon
  from the description with `GetWeatherIcon`.

## Model

| member | source | states |
|---|---|---|
| `Text.TrimStart` | angular-demo-app/src/app/components/weather/weather.component.ts:63 | the leading cut of `trim` is no longer than the input and leaves nothing that starts with white space |
| `Text.TrimEnd` | angular-demo-app/src/app/components/weather/weather.component.ts:63 | the trailing cut of `trim` is no longer than the input and leaves nothing that ends with white space |
| `Text.Trim` | angular-demo-app/src/app/components/weather/weather.component.ts:71 | `trim` never lengthens the input, and its result neither starts nor ends with white space |
| `Text.TrimStartSuffix` | angular-demo-app/src/app/components/weather/weather.component.ts:63 | what the leading cut of `trim` keeps is a suffix of the input |
| `Text.TrimStartCut` | angular-demo-app/src/app/components/weather/weather.component.ts:63 | every character the leading cut of `trim` removes is white space |
| `Text.TrimEndPrefix` | angular-demo-app/src/app/components/weather/weather.component.ts:63 | what the trailing cut of `trim` keeps is a prefix of the input |
| `Text.TrimEndCut` | angular-demo-app/src/app/components/weather/weather.component.ts:63 | every character the trailing cut of `trim` removes is white space |
| `Text.TrimStartSpec` | angular-demo-app/src/app/components/weather/weather.component.ts:63 | `trim` drops exactly a leading run of white space and keeps a suffix that does not start with white space |
| `Text.TrimEndSpec` | angular-demo-app/src/app/components/weather/weather.component.ts:63 | `trim` drops exactly a trailing run of white space and keeps a prefix that does not end with white space |
| `Text.TrimSpec` | angular-demo-app/src/app/components/weather/weather.component.ts:71 | the trimmed city name occurs in the input right after the leading white space |
| `Text.TrimEmptyIff` | angular-demo-app/src/app/components/todo/todo.component.ts:69 | a string trims to nothing (is rejected as blank) iff every character is white space |
| `Text.IsBlank` | angular-demo-app/src/app/components/todo/todo.component.ts:69 | `!s.trim()` holds iff every character of `s` is white space |
| `Text.TrimIdempotent` | angular-demo-app/src/app/components/weather/weather.component.ts:71 | trimming an already trimmed name changes nothing |
| `Text.LowerChar` | angular-demo-app/src/app/components/weather/weather.component.ts:95 | an upper-case ASCII letter becomes its own lower-case letter, every other character is left unchanged, and no upper-case letter remains |
| `Text.Lower` | angular-demo-app/src/app/components/weather/weather.component.ts:95 | `toLowerCase` keeps the length and lowers each character in place |
| `Text.SameIgnoringCase` | angular-demo-app/src/app/components/weather/weather.component.ts:95 | two locations are equal after `toLowerCase` iff they have the same length and agree letter by letter ignoring ASCII case |
| `Text.LowerIdempotent` | angular-demo-app/src/app/components/weather/weather.component.ts:122 | lowering twice equals lowering once |
| `Text.Contains` | angular-demo-app/src/app/components/weather/weather.component.ts:123-127 | `includes` never finds a keyword longer than the text, and always finds the empty keyword |
| `Text.ContainsAt` | angular-demo-app/src/app/components/weather/weather.component.ts:123-127 | an occurrence of the keyword at a known index makes `includes` true |
| `Text.ContainsIff` | angular-demo-app/src/app/components/weather/weather.component.ts:123-127 | `includes` holds iff the keyword occurs at some index |
| `Text.NotContainsMissingChar` | angular-demo-app/src/app/components/weather/weather.component.ts:123-127 | a keyword with a character the text lacks is not included |
| `WeatherService.MockReading` | angular-demo-app/src/app/services/weather.service.ts:29-36 | the reading has `location` = city, temperature in 5..34, humidity in 40..79, wind in 5..19, a description from the four, and the sun icon |
| `WeatherService.MockReadingsAreReachable` | angular-demo-app/src/app/services/weather.service.ts:29-36 | every reading in those ranges comes from some draws, so the ranges are exact |
| `WeatherService.DescriptionIndex` | angular-demo-app/src/app/services/weather.service.ts:32 | each of the four descriptions is picked by a draw index below four, and by no other index |
| `WeatherService.WeatherService.constructor` | angular-demo-app/src/app/services/weather.service.ts:20 | the current value starts as null |
| `WeatherService.WeatherService.GetWeather` | angular-demo-app/src/app/services/weather.service.ts:27-40 | returns a mock reading for the city and stores that same reading as the current value |
| `WeatherService.WeatherService.GetCurrentWeather` | angular-demo-app/src/app/services/weather.service.ts:42-44 | returns the stored value and changes nothing |
| `WeatherService.GetThenCurrent` | angular-demo-app/src/app/services/weather.service.ts:38-44 | after `getWeather`, `getCurrentWeather` returns exactly the reading returned |
| `WeatherComponent.HistoryAfter` | angular-demo-app/src/app/components/weather/weather.component.ts:92-105 | a place already present leaves the history exactly as it was; a new reading becomes element 0, the old entries follow in order, and only the last is dropped, only when the length would pass five |
| `WeatherComponent.HistoryAfterValid` | angular-demo-app/src/app/components/weather/weather.component.ts:94-103 | adding a reading keeps at most five entries with no two for the same place ignoring case |
| `WeatherComponent.HistoryAfterHasPlace` | angular-demo-app/src/app/components/weather/weather.component.ts:94-103 | after a reading arrives, the history has an entry for its place |
| `WeatherComponent.HistoryOfValid` | angular-demo-app/src/app/components/weather/weather.component.ts:92-105 | for any series of readings, the history keeps the invariant and holds only readings that arrived |
| `WeatherComponent.RepeatedCityKeepsFirstReading` | angular-demo-app/src/app/components/weather/weather.component.ts:94-98 | "Paris" then "paris" leaves one entry, the first reading |
| `WeatherComponent.InHistory` | angular-demo-app/src/app/components/weather/weather.component.ts:94-96 | the `some` test finds a reading that is itself stored, and finds nothing in an empty history |
| `WeatherComponent.HasLocation` | angular-demo-app/src/app/components/weather/weather.component.ts:94-96 | the `some` scan answers true iff an entry has the same lowercased location |
| `WeatherComponent.GetTemperatureClass` | angular-demo-app/src/app/components/weather/weather.component.ts:132-137 | exactly one class: cold iff below 10, cool iff 10..19, warm iff 20..29, hot iff 30 or more |
| `WeatherComponent.TemperatureClassMonotone` | angular-demo-app/src/app/components/weather/weather.component.ts:132-137 | a higher temperature never gets a colder class |
| `WeatherComponent.GetWeatherIcon` | angular-demo-app/src/app/components/weather/weather.component.ts:121-129 | sun iff "sunny" or "clear" occurs in the lowercased description; each other icon only when its keyword occurs; the default iff no keyword occurs |
| `WeatherComponent.WeatherIconFollowsRules` | angular-demo-app/src/app/components/weather/weather.component.ts:121-129 | the icon is the one of the first matching rule in the order sunny, clear, cloud, rain, snow, storm, else the default |
| `WeatherComponent.CloudIconWhen` | angular-demo-app/src/app/components/weather/weather.component.ts:123-124 | "cloud" without "sunny" or "clear" gives the cloud icon |
| `WeatherComponent.SunnyIcon` | angular-demo-app/src/app/components/weather/weather.component.ts:123 | "Sunny" maps to the sun |
| `WeatherComponent.CloudyIcon` | angular-demo-app/src/app/components/weather/weather.component.ts:124 | "Cloudy" maps to the cloud |
| `WeatherComponent.RainyIcon` | angular-demo-app/src/app/components/weather/weather.component.ts:125 | "Rainy" maps to the rain cloud |
| `WeatherComponent.PartlyCloudyIcon` | angular-demo-app/src/app/components/weather/weather.component.ts:124 | "Partly Cloudy" maps to the cloud |
| `WeatherComponent.WeatherComponent.constructor` | angular-demo-app/src/app/components/weather/weather.component.ts:16-38 | no reading, not loading, no error, city "New York", empty history |
| `WeatherComponent.WeatherComponent.OnInit` | angular-demo-app/src/app/components/weather/weather.component.ts:40-51 | fetches for the initial city, then subscribes; the replayed latest reading becomes current and enters the history |
| `WeatherComponent.WeatherComponent.Notify` | angular-demo-app/src/app/components/weather/weather.component.ts:45-50 | a published reading becomes current and is offered to the history; null is ignored |
| `WeatherComponent.WeatherComponent.GetWeather` | angular-demo-app/src/app/components/weather/weather.component.ts:62-83 | blank name: error "Please enter a city name", with loading, current reading, history and service untouched; otherwise a fresh reading for the trimmed name is current, loading is false, error is null, and the history is updated once subscribed |
| `WeatherComponent.WeatherComponent.OnSearchWeather` | angular-demo-app/src/app/components/weather/weather.component.ts:54-59 | same effect as `GetWeather` |
| `WeatherComponent.WeatherComponent.OnCitySelect` | angular-demo-app/src/app/components/weather/weather.component.ts:86-89 | sets the city and then fetches for it |
| `WeatherComponent.WeatherComponent.AddToHistory` | angular-demo-app/src/app/components/weather/weather.component.ts:92-105 | the new history is `HistoryAfter` of the old one, and the invariant is kept |
| `WeatherComponent.WeatherComponent.OnClearInput` | angular-demo-app/src/app/components/weather/weather.component.ts:108-110 | the city input becomes empty and nothing else changes |
| `WeatherComponent.WeatherComponent.OnRefresh` | angular-demo-app/src/app/components/weather/weather.component.ts:113-118 | no current reading: nothing changes; otherwise the city becomes its location and is fetched |
| `TodoComponent.WithStatus` | angular-demo-app/src/app/components/todo/todo.component.ts:51-58 | the `active`/`completed` filters keep exactly the items with that flag |
| `TodoComponent.WithStatusConcat` | angular-demo-app/src/app/components/todo/todo.component.ts:53-55 | filtering keeps list order |
| `TodoComponent.ActiveCompletedPartition` | angular-demo-app/src/app/components/todo/todo.component.ts:51-58 | the active and completed views together are the list (as multisets and by length) |
| `TodoComponent.CompletedCount` | angular-demo-app/src/app/components/todo/todo.component.ts:60-62 | the completed count is at most the list length |
| `TodoComponent.CompletedCountComplement` | angular-demo-app/src/app/components/todo/todo.component.ts:60-62 | completed count plus active count equals the list length |
| `TodoComponent.WithoutId` | angular-demo-app/src/app/components/todo/todo.component.ts:94-96 | delete keeps exactly the items whose id differs |
| `TodoComponent.WithoutIdConcat` | angular-demo-app/src/app/components/todo/todo.component.ts:95 | delete keeps the remaining items in order |
| `TodoComponent.WithoutAbsentId` | angular-demo-app/src/app/components/todo/todo.component.ts:95 | deleting an absent id is a no-op |
| `TodoComponent.WithoutIdIdempotent` | angular-demo-app/src/app/components/todo/todo.component.ts:95 | deleting twice equals deleting once |
| `TodoComponent.FirstIndexOf` | angular-demo-app/src/app/components/todo/todo.component.ts:88 | `find` gives the first index with the id, or none when no item has it |
| `TodoComponent.FirstIndexUnique` | angular-demo-app/src/app/components/todo/todo.component.ts:88 | an index with the id and none before it is the one `find` gives |
| `TodoComponent.FindTodo` | angular-demo-app/src/app/components/todo/todo.component.ts:88 | the scan returns the first index with the id, or none when absent |
| `TodoComponent.FirstIndexUniqueOrNone` | angular-demo-app/src/app/components/todo/todo.component.ts:88 | the scan's answer is the first-index function's |
| `TodoComponent.Toggled` | angular-demo-app/src/app/components/todo/todo.component.ts:87-92 | toggling keeps the list length |
| `TodoComponent.ToggledChangesFirstOnly` | angular-demo-app/src/app/components/todo/todo.component.ts:87-92 | only the first item with the id changes, and only its `completed` flag |
| `TodoComponent.ToggleAbsentId` | angular-demo-app/src/app/components/todo/todo.component.ts:88-91 | toggling an absent id is a no-op |
| `TodoComponent.ToggleTwice` | angular-demo-app/src/app/components/todo/todo.component.ts:87-92 | toggling the same id twice restores the list |
| `TodoComponent.FlipChangesCount` | angular-demo-app/src/app/components/todo/todo.component.ts:90 | flipping one item moves the completed count by exactly one, in the direction of the flip |
| `TodoComponent.ToggleChangesCount` | angular-demo-app/src/app/components/todo/todo.component.ts:87-92 | toggling a present id moves the completed count by plus or minus one |
| `TodoComponent.TodoComponent.constructor` | angular-demo-app/src/app/components/todo/todo.component.ts:26-49 | empty inputs, priority medium, the two initial items, filter "all" |
| `TodoComponent.TodoComponent.FilteredTodos` | angular-demo-app/src/app/components/todo/todo.component.ts:51-58 | "all" is the whole list; "active"/"completed" hold exactly the list's items with that flag |
| `TodoComponent.TodoComponent.CompletedTodos` | angular-demo-app/src/app/components/todo/todo.component.ts:60-62 | equals the length of the completed filter and is at most the list length |
| `TodoComponent.TodoComponent.OnAddTodo` | angular-demo-app/src/app/components/todo/todo.component.ts:68-85 | blank title: nothing changes; otherwise one not-completed item with the untrimmed title, description and priority is appended, earlier items stay, and the inputs reset to "", "" and medium |
| `TodoComponent.TodoComponent.OnToggleTodo` | angular-demo-app/src/app/components/todo/todo.component.ts:87-92 | the list becomes `Toggled` of the old list |
| `TodoComponent.TodoComponent.OnDeleteTodo` | angular-demo-app/src/app/components/todo/todo.component.ts:94-96 | the list becomes `WithoutId` of the old list |
| `DashboardComponent.CompletedCount` | angular-demo-app/src/app/components/dashboard/dashboard.component.ts:61-63 | the count lies in 0..the number of features; 0 iff none is completed, all iff every one is |
| `DashboardComponent.InitialCompletedCount` | angular-demo-app/src/app/components/dashboard/dashboard.component.ts:26-32 | the initial features have 3 completed |
| `DashboardComponent.Flip` | angular-demo-app/src/app/components/dashboard/dashboard.component.ts:56-58 | only the chosen feature changes, and only its `completed` flag, which is negated |
| `DashboardComponent.FlipChangesCount` | angular-demo-app/src/app/components/dashboard/dashboard.component.ts:56-63 | one toggle moves the completed count by exactly one |
| `DashboardComponent.FlipTwice` | angular-demo-app/src/app/components/dashboard/dashboard.component.ts:56-58 | toggling a feature twice restores the features |
| `DashboardComponent.DashboardComponent.constructor` | angular-demo-app/src/app/components/dashboard/dashboard.component.ts:26-38 | the five initial features, advanced features hidden, click count 0 |
| `DashboardComponent.DashboardComponent.OnButtonClick` | angular-demo-app/src/app/components/dashboard/dashboard.component.ts:47-50 | the click count goes up by exactly 1 |
| `DashboardComponent.DashboardComponent.OnToggleFeatures` | angular-demo-app/src/app/components/dashboard/dashboard.component.ts:52-54 | the switch is negated |
| `DashboardComponent.DashboardComponent.OnFeatureToggle` | angular-demo-app/src/app/components/dashboard/dashboard.component.ts:56-58 | flips only the given feature; the completed count moves by one |
| `DashboardComponent.DashboardComponent.CompletedFeaturesCount` | angular-demo-app/src/app/components/dashboard/dashboard.component.ts:61-63 | at most the number of features |
| `DashboardComponent.ToggleTwiceClickTwice` | angular-demo-app/src/app/components/dashboard/dashboard.component.ts:47-54 | two switch presses restore the switch; two clicks add 2; the features are untouched |

## Left out

- The user list, user detail, user service, highlight directive and route table
  are not part of this model. They are HTTP I/O, router navigation, DOM styling
  and framework configuration.
- RxJS is not modelled as observables. Publishing and subscribing are modelled
  as the synchronous calls they amount to here. Other subscribers of the shared
  service are not modelled. That includes the subscription of an earlier weather
  view, which is never unsubscribed.
- The error handler of the weather request is not modelled. The mock service
  answers with `of(...)`, which never fails, so the "Failed to get weather
  data" branch cannot run.
- `loading` is set to true and back to false within one synchronous call, so
  no outside observer ever sees it true. The model keeps both assignments.
- `console.log`, `console.error` and `event.preventDefault()` are left out.
  They are logging and DOM effects.
- The dashboard's display-only fields are left out: title, date, price, user
  name, login flag and role. So are the todo view's `trackByTodoId` template
  helper and the weather view's `popularCities` list, which only feeds the
  template's city buttons (a click arrives as `OnCitySelect`).
- Object identity is not modelled. `onToggleTodo` and `onFeatureToggle` mutate
  an item object that the list (and any filtered view) shares. The model
  replaces the item's value in the sequence instead.
- `DashboardComponent.DashboardComponent.OnFeatureToggle` takes the position of
  the feature in the list, not the feature object the template passes in.
- `Text.Lower`: lowers ASCII letters only. Unicode case mapping is not modelled.
- `Text.IsSpace`: covers JavaScript's white space and line terminator code
  points, without later Unicode additions.
- `WeatherComponent.GetTemperatureClass`: takes an integer. A JavaScript number
  can be fractional, but the service only produces integers.
- `DashboardComponent.DashboardComponent.OnButtonClick`: uses an unbounded
  integer. JavaScript numbers lose precision above 2^53. The same holds for
  todo ids and timestamps.
