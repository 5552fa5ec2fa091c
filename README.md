# Weather app: unit handling, query rewriting and page state

A browser weather page (`src/Weather.js`, `src/Page.js`) looks up the
current conditions for a searched city and shows them in METRIC or IMPERIAL
units. This project models the part of it that has logic of its own:

- the unit state of the weather object (`initialUnits`, `units`);
- the display helpers: temperature, Kelvin conversion, wind speed, wind
  direction, visibility and pressure;
- the query flag of the detailed-weather request;
- the rewriting of U.S. state abbreviations in a search query;
- the unit label;
- the show/hide flag of the daily forecast;
- what the toggle-units and search handlers do to the page's and the
  weather object's state.

Modules:

- `Wrappers`: `Option`.
- `Strings`: JavaScript's `includes`, and `replace` with a string pattern
  (first occurrence only) for a replacement without `$` patterns, together
  with the search for the first occurrence that `replace` performs.
- `Weather`: units, display helpers, and the `Weather` class with its fields
  and setters.
- `Page`: the state table and its rewriting loop, the unit label, the view
  of the current conditions, and the `Page` class with its handlers.

Numbers are exact reals; the unit strings '' / 'METRIC' / 'IMPERIAL' are the
datatype `UnitSystem` (`Unset | Metric | Imperial`). Replies from the
network are parameters of the handlers (`None` for a failed or unusable
reply), and the requests a handler sends are part of its result. The model assumes
that the provider answers a detailed request in Fahrenheit when its units
flag is "imperial" and in Celsius otherwise (`Weather.Reported`). The
getters of `Weather` (`getUnits`, `getInitialUnits`, `getJSONCityData`,
`getJSONDescriptiveWeatherData`, `getLatitude`, `getLongitude`) are reads of
the corresponding fields.

## Model

| member | source | states |
|---|---|---|
| Weather.Shown | src/Weather.js:34-40 | the helpers test only for IMPERIAL, so the scale they use is IMPERIAL exactly when `units` is IMPERIAL and METRIC otherwise, never unset |
| Weather.CelsiusFahrenheitInverse | src/Weather.js:189-193 | the two conversion formulas of `getTemperature` undo each other |
| Weather.Temperature | src/Weather.js:184-198 | no result exactly when `initialUnits` is unset; otherwise the shown value denotes the same Celsius temperature as the fetched one, read in `initialUnits` and shown in the scale of `units` |
| Weather.TemperatureBranches | src/Weather.js:184-198 | the four branches give the fetched value, `t*1.8+32`, `(t-32)*5/9` and the fetched value; an unset `initialUnits` gives nothing |
| Weather.AgreeingUnitsShowFetchedTemperature | src/Weather.js:184-198 | once the units are set and not toggled, temperatures are shown as fetched |
| Weather.FromKelvin | src/Weather.js:34-40 | the result, read in the scale of `units`, is the Kelvin input minus 273.15 in Celsius |
| Weather.FromKelvinAgreesWithTemperature | src/Weather.js:34-40 | the Fahrenheit Kelvin path equals Celsius-to-Fahrenheit of the Celsius path; 273.15 K shows as 0 and 32 |
| Weather.WindSpeed | src/Weather.js:281-287 | suffix " mph" exactly for IMPERIAL, " km/h" otherwise; km/h is m/s times 3.6 exactly; the mph factor 2.2369 is within 1/10000 per m/s of 3600/1609.344 |
| Weather.Visibility | src/Weather.js:268-274 | suffix " miles" exactly for IMPERIAL, " km" otherwise; value times 1609.344 (miles) or 1000 (km) gives back the metres |
| Weather.Pressure | src/Weather.js:179-182 | the inch value is within 1/30000 inch per hPa of hPa / 33.8639, whatever the units |
| Weather.UnsetDisplaysAsMetric | src/Weather.js:19-24 | before `setUnits`, wind speed, visibility, Kelvin temperatures, the request flag and the temperature's shown scale are the METRIC ones |
| Weather.WindDirection | src/Weather.js:231-249 | a label is given only for headings from 0 to 359.9; which label, and where none is given, are fixed by Weather.WindDirectionGaps, Weather.WindDirectionRotated and Weather.WindDirectionBoundaries |
| Weather.WindDirectionGaps | src/Weather.js:231-249 | a heading gets no label exactly when it is negative, above 359.9, or strictly inside one of the 0.1-wide gaps after a sector boundary |
| Weather.WindDirectionRotated | src/Weather.js:231-249 | every heading that gets a label lies in [0, 360), and its label is the conventional compass point of the heading turned by 180 degrees |
| Weather.WindDirectionBoundaries | src/Weather.js:231-249 | across each of the eight boundaries 22.5 + 45k the label moves one point clockwise |
| Weather.UnitsForCountry | src/Weather.js:331-341 | IMPERIAL exactly when the country name contains "United States of America", "Myanmar" or "Liberia"; METRIC otherwise; never unset |
| Weather.Toggled | src/Weather.js:346-352 | never unset; IMPERIAL exactly when the old value was not IMPERIAL |
| Weather.ToggleTwice | src/Weather.js:346-352 | two toggles restore a set value and turn the unset state into METRIC; one toggle always changes the scale shown |
| Weather.UnitsFlag | src/Weather.js:209-215 | the request flag is "imperial" exactly for IMPERIAL and "metric" otherwise |
| Weather.Reported | src/Weather.js:209-215 | the assumed behaviour of the weather provider, which answers in Fahrenheit for the flag "imperial" and in Celsius for any other flag: read in the scale the flag names, the reply is the true temperature |
| Weather.SearchAfterToggleMisreadsForecast | src/Weather.js:209-215 | as written: a page set up in IMPERIAL, toggled to METRIC and then searched shows a true 20 °C as -60/9 |
| Weather.AsWrittenFlagMisreadsAfterToggle | src/Weather.js:209-215 | as written, for every set `initialUnits` and every true temperature: after one toggle, the reply requested with the flag of `units` is shown as the true temperature exactly when it is -40 |
| Weather.InitialUnitsFlagShowsTrueTemperature | src/Weather.js:184-198 | with the request flag taken from `initialUnits`, every shown temperature denotes the true temperature, in every unit state |
| Weather.Weather.constructor | src/Weather.js:14-25 | both unit fields unset, no cached replies, coordinates 0 |
| Weather.Weather.SetUnits | src/Weather.js:331-341 | both unit fields become `UnitsForCountry(countryName)`; the cached replies and coordinates are unchanged |
| Weather.Weather.ToggleUnits | src/Weather.js:346-352 | `units` becomes `Toggled(old units)`; `initialUnits`, the cached replies and the coordinates are unchanged |
| Weather.Weather.SetCityData | src/Weather.js:293-295 | stores the city reply and touches no other field |
| Weather.Weather.SetForecastData | src/Weather.js:303-305 | stores the detailed reply and touches no other field |
| Weather.Weather.SetLatitude | src/Weather.js:312-314 | stores the latitude and touches no other field |
| Weather.Weather.SetLongitude | src/Weather.js:322-324 | stores the longitude and touches no other field |
| Weather.ToggleTwiceRestores | src/Weather.js:346-352 | two calls of `toggleUnits` keep `initialUnits`, restore a set `units` and leave the shown scale unchanged |
| Strings.IndexFrom | src/Page.js:1214-1215 | the first occurrence at or after `k`, or none exactly when there is no occurrence from `k` on |
| Strings.IndexOf | src/Page.js:1215 | the search inside `replace`: found exactly when `includes` holds, and then at the first occurrence |
| Strings.ReplaceFirst | src/Page.js:1215 | for a replacement without `$` patterns: unchanged without an occurrence; otherwise the first occurrence alone is replaced, and the length changes by the length difference |
| Page.ApplyEntry | src/Page.js:1214-1216 | one loop pass: unchanged when the code does not occur; otherwise the first occurrence of the code is replaced by the full name |
| Page.StatesRowsWellFormed | src/Page.js:1195-1211 | the table has 50 rows; every code is two upper-case letters and every full name has at least four characters |
| Page.StatesNamesWithoutPairs | src/Page.js:1195-1211 | no full name has two adjacent upper-case letters, so no code can match inside an inserted name |
| Page.StatesCodesDistinct | src/Page.js:1195-1211 | no two rows share a code |
| Page.StatesTableWellFormed | src/Page.js:1195-1211 | the two facts above, and every full name is longer than its code |
| Page.OnlyRowWithCode | src/Page.js:1195-1211 | each row is the only row carrying its code |
| Page.ApplyEntries | src/Page.js:1213-1217 | no contract of its own: the query after the loop has visited the given rows in order, each pass on the previous pass's output; its properties are stated by Page.ApplyEntriesAppend, Page.NoCodeNoChange, Page.NeverShorter and Page.UnchangedIffNoCode |
| Page.ApplyEntriesAppend | src/Page.js:1213-1217 | the loop over two tables in a row is the loop over their concatenation |
| Page.ApplyEntriesAround | src/Page.js:1213-1217 | the loop splits around any row into the rows before it, that row, and the rows after it |
| Page.NoCodeNoChange | src/Page.js:1213-1218 | a query containing no code of the table is returned unchanged |
| Page.NeverShorter | src/Page.js:1213-1218 | when every full name is longer than its code, the result is never shorter than the query |
| Page.UnchangedIffNoCode | src/Page.js:1213-1218 | the result equals the query exactly when the query contains no code, and is strictly longer otherwise |
| Page.StateAbbreviationMapping | src/Page.js:1194-1219 | the loop computes the in-order rewriting over the 50-row table; the result is never shorter and equals the query exactly when the query contains no state code |
| Page.SkipRows | src/Page.js:1213-1217 | rows whose codes match no pair of adjacent capitals in the query leave it unchanged |
| Page.ReplaceRow | src/Page.js:1214-1215 | a code whose first match is at capital pair `p` is replaced by its full name at `p` |
| Page.UnmatchedQueries | src/Page.js:1194-1219 | "Paris" and the lower-case "Austin tx" come back unchanged; matching is case-sensitive |
| Page.CityAndStateCode | src/Page.js:1194-1219 | for every row: a city name without adjacent capitals, a space and the row's code becomes the city, a space and the row's full name (every full name is itself free of adjacent capitals, by `Page.StatesNamesWithoutPairs`) |
| Page.AustinTexas | src/Page.js:1194-1219 | "Austin TX" becomes "Austin Texas" |
| Page.OrderMattersTableOrder | src/Page.js:1213-1217 | in table order "MAZ" becomes "Massachusettsrizona": the AZ replacement makes an MA that a later row then replaces |
| Page.OrderMattersReversed | src/Page.js:1213-1217 | visiting the MA row before the AZ row gives "MassachusettsZ" instead, so the result depends on the table order |
| Page.UnitText | src/Page.js:1182-1185 | "F" exactly for IMPERIAL and "C" otherwise |
| Page.UnitTextNamesShownScale | src/Page.js:1313-1315 | the label next to a temperature names the scale in which the temperature is shown: Fahrenheit under "F", Celsius under "C" |
| Page.ConditionsView | src/Page.js:1290-1380 | the unit-dependent values `updateContent` renders agree on one scale: the label is "F" exactly when wind and gust carry the mph suffix and visibility the miles suffix; every temperature, read in the scale the label names, denotes the fetched one; temperatures are present exactly when `initialUnits` is set; the wind direction is absent exactly in the gaps of `getWindDirection` |
| Page.ViewDependsOnShownScale | src/Page.js:1290-1380 | the rendered current conditions depend on `units` only through the scale the helpers use |
| Page.DoubleToggleRestoresView | src/Page.js:1290-1380 | two toggles give back every rendered value, from any unit state |
| Page.ToggleChangesLabel | src/Page.js:1313-1315 | each toggle changes the unit label shown |
| Page.Page.constructor | src/Page.js:28-34 | the daily-forecast flag starts at 1, so the first click shows the section; the locality is empty; a fresh weather object has unset units and no cached replies |
| Page.Page.HideShowClick | src/Page.js:151-168 | flag 1 becomes 0 and shows the container ("flex"); any other value becomes 1 and hides it ("none") |
| Page.Page.ToggleButtonClick | src/Page.js:1263-1282 | `units` is toggled and nothing else in the weather object changes; the conditions are re-rendered from the cached replies in the new units, and the button reads "°F" or "°C", when both replies are present; otherwise nothing is rendered and the button text stays |
| Page.Page.SubmitSearch | src/Page.js:1224-1258 | an empty query changes nothing and sends nothing; otherwise the locality becomes the rewritten query, the city is requested under it and its reply cached; a usable reply leads to a detailed request at its coordinates, carrying the flag of the current `units` as `getWeatherData` (src/Weather.js:209-215) sets it, whose reply is cached and rendered; the unit fields and coordinates never change |
| Page.SearchAfterToggle | src/Page.js:1224-1258 | a page set up in some units, toggled once and then searched, requests the forecast in the toggled units, and shows a true temperature correctly exactly when it is -40 |

## Left out

- Network requests (`getCityData`, `getWeatherData`, and the reverse-geocoding fetches of `getLocalityInfo` and `getCountryInfo`): replies are handler parameters, and requests are returned values.
- Geolocation (`getLocationInformation`, `getInitCountryName`): the country name is a parameter of `SetUnits`.
- The promises and asynchronous ordering of the handlers: overlapping searches and the start-up sequence in `initializeComponents` are not modelled.
- DOM rendering beyond the unit-dependent values: text, icons, date and time, humidity, chance of rain, sunrise and sunset.
- The daily and hourly forecast sections, apart from their shared use of `getTemperature`.
- Floating point and `toFixed` rounding: all values are exact reals, and results are numbers, not rounded strings.
- Weather.Temperature: ignores that the METRIC-to-METRIC branch alone returns its input unrounded.
- Weather.WindSpeed, Weather.Pressure: stated as error bounds against the exact conversions, since the factors 2.2369 and 0.0295 are rounded constants.
- The error path of the search handler for an empty query: calling `setCustomValidity` on a string throws before any state changes, and the model returns with nothing changed.
- A `null` query value: a text input's value is never null.
- The `API` key store, `DateTimeUtility`, `lodash` and `src/index.js`: these are not part of this model.
- Strings.ReplaceFirst: inserts the replacement literally, whereas JavaScript's `replace` expands `$&`, `$$`, `` $` `` and `$'` in a string replacement. None of the fifty full names contains `$`, so the two agree for this table.
- Page.ConditionsView: the gust is converted as if it were in metres per second whatever flag the detailed reply was requested under, as `updateContent` does with `current.wind_gust`; under the provider assumption above, a reply requested with "imperial" already gives it in mph, so the view shows mph × 2.2369 with the mph suffix. The contract ties only the gust's suffix to the wind's and says nothing about its value.
- Weather.Weather.SetCityData, Weather.Weather.SetForecastData: an unusable reply (an error object or `undefined`) is stored as `None` rather than as the object itself.

## Findings

| source | as written | input that shows it | evidently intended | confidence | as-written member | corrected member |
|---|---|---|---|---|---|---|
| src/Weather.js:209-215 | the detailed request takes its units flag from `units`, while `getTemperature` (src/Weather.js:184-198) reads the reply in the `initialUnits` scale | a page set up in IMPERIAL, toggled to METRIC, then searched: the reply is in Celsius, and 20 °C is shown as (20 - 32) * 5/9 ≈ -6.67 | request the reply in `initialUnits`, the scale `getTemperature` assumes | not executed | Weather.AsWrittenFlagMisreadsAfterToggle | Weather.InitialUnitsFlagShowsTrueTemperature |

`Page.Page.SubmitSearch` models the handler as written: it sends the flag of `units`. `Page.SearchAfterToggle` runs it after a toggle and shows the misreading through the handler. `Weather.SearchAfterToggleMisreadsForecast` gives the 20 °C instance. The corrected request takes the flag from `initialUnits`, and `Weather.InitialUnitsFlagShowsTrueTemperature` proves that every shown temperature is then the true one.
