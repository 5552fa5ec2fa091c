/**
 * The unit state and the derived display values of the weather-data object
 * (src/Weather.js). The object keeps two unit fields, `initialUnits` (the
 * units the page was set up in, from the detected country) and `units` (the
 * units currently displayed), plus the cached replies of the last search.
 * The display helpers only read the two unit fields; they are modelled here as
 * functions of those field values and their numeric input.
 */
module Weather {
  import opened Wrappers
  import opened Strings

  /** The string held by `initialUnits` and `units`: '' (unset), 'METRIC' or 'IMPERIAL'. */
  datatype UnitSystem = Unset | Metric | Imperial

  /**
   * The scale a display helper actually uses: every helper tests only
   * `units === 'IMPERIAL'`, so the unset state is displayed as metric.
   */
  function Shown(u: UnitSystem): (s: UnitSystem)
    ensures s != Unset
    ensures s == Imperial <==> u == Imperial
  {
    if u == Imperial then Imperial else Metric
  }

  function Abs(x: real): real {
    if x < 0.0 then -x else x
  }

  // ---------------------------------------------------------------------------
  // Temperature scales, as exact real arithmetic.

  function CelsiusToFahrenheit(c: real): real {
    c * 1.8 + 32.0
  }

  function FahrenheitToCelsius(f: real): real {
    (f - 32.0) * (5.0 / 9.0)
  }

  /** The Celsius temperature denoted by `t` read in scale `scale` (unset read as Celsius). */
  function InCelsius(t: real, scale: UnitSystem): real {
    if scale == Imperial then FahrenheitToCelsius(t) else t
  }

  /** The two formulas `getTemperature` uses are mutual inverses over exact reals. */
  lemma CelsiusFahrenheitInverse(c: real, f: real)
    ensures FahrenheitToCelsius(CelsiusToFahrenheit(c)) == c
    ensures CelsiusToFahrenheit(FahrenheitToCelsius(f)) == f
  {
  }

  /**
   * `getTemperature`: the provider's value `t` is taken to be in the
   * `initialUnits` scale and is shown in the scale of `units`. There is no
   * result while `initialUnits` is unset (`getTemperature` falls through
   * and returns undefined).
   */
  function Temperature(initial: UnitSystem, current: UnitSystem, t: real): (r: Option<real>)
    ensures r.None? <==> initial == Unset
    ensures r.Some? ==> InCelsius(r.value, Shown(current)) == InCelsius(t, initial)
  {
    match initial
    case Imperial => if current == Imperial then Some(t) else Some(FahrenheitToCelsius(t))
    case Metric => if current == Imperial then Some(CelsiusToFahrenheit(t)) else Some(t)
    case Unset => None
  }

  /** The four branches of `getTemperature`, and its fall-through. */
  lemma TemperatureBranches(t: real)
    ensures Temperature(Metric, Metric, t) == Some(t)
    ensures Temperature(Metric, Imperial, t) == Some(t * 1.8 + 32.0)
    ensures Temperature(Imperial, Metric, t) == Some((t - 32.0) * 5.0 / 9.0)
    ensures Temperature(Imperial, Imperial, t) == Some(t)
    ensures Temperature(Unset, Metric, t) == None && Temperature(Unset, Imperial, t) == None
  {
  }

  /** Right after `setUnits` the two fields agree, and temperatures are shown as fetched. */
  lemma AgreeingUnitsShowFetchedTemperature(u: UnitSystem, t: real)
    requires u != Unset
    ensures Temperature(u, u, t) == Some(t)
  {
  }

  /** `convertTemperatureFromKelvin`: a Kelvin reading shown in the scale of `units`. */
  function FromKelvin(units: UnitSystem, k: real): (r: real)
    ensures InCelsius(r, Shown(units)) == k - 273.15
  {
    if units == Imperial then (k - 273.15) * 9.0 / 5.0 + 32.0 else k - 273.15
  }

  /** The Kelvin path agrees with `getTemperature`'s Celsius-to-Fahrenheit formula. */
  lemma FromKelvinAgreesWithTemperature(k: real)
    ensures FromKelvin(Imperial, k) == CelsiusToFahrenheit(FromKelvin(Metric, k))
    ensures Temperature(Metric, Imperial, FromKelvin(Metric, k)) == Some(FromKelvin(Imperial, k))
    ensures FromKelvin(Metric, 273.15) == 0.0 && FromKelvin(Imperial, 273.15) == 32.0
  {
  }

  // ---------------------------------------------------------------------------
  // Wind speed, visibility and pressure.

  /** A displayed measurement: a number followed by its unit suffix. */
  datatype Reading = Reading(value: real, suffix: string)

  /** Metres per international mile. */
  const MetresPerMile: real := 1609.344

  /** `getWindSpeed`: metres per second shown as mph or km/h. */
  function WindSpeed(units: UnitSystem, mps: real): (r: Reading)
    ensures r.suffix == " mph" <==> units == Imperial
    ensures r.suffix == " km/h" <==> units != Imperial
    ensures units != Imperial ==> r.value * 1000.0 == mps * 3600.0
    ensures units == Imperial ==> Abs(r.value - mps * 3600.0 / MetresPerMile) <= Abs(mps) / 10000.0
  {
    if units == Imperial then Reading(mps * 2.2369, " mph") else Reading(mps * (18.0 / 5.0), " km/h")
  }

  /** `getVisibility`: metres shown as miles or kilometres. */
  function Visibility(units: UnitSystem, metres: real): (r: Reading)
    ensures r.suffix == " miles" <==> units == Imperial
    ensures r.suffix == " km" <==> units != Imperial
    ensures units == Imperial ==> r.value * MetresPerMile == metres
    ensures units != Imperial ==> r.value * 1000.0 == metres
  {
    if units == Imperial then Reading(metres / 1609.344, " miles") else Reading(metres / 1000.0, " km")
  }

  /** Hectopascals per inch of mercury (conventional value). */
  const HectopascalsPerInch: real := 33.8639

  /**
   * `getPressure`: hectopascals shown in inches of mercury whatever the
   * units; its factor 0.0295 is within 1/30000 inch per hPa of the
   * conventional conversion.
   */
  function Pressure(hPa: real): (r: real)
    ensures Abs(r - hPa / HectopascalsPerInch) <= Abs(hPa) / 30000.0
  {
    hPa * 0.0295
  }

  /** The helpers that test `units === 'IMPERIAL'` treat the unset state as metric. */
  lemma UnsetDisplaysAsMetric(x: real)
    ensures WindSpeed(Unset, x) == WindSpeed(Metric, x)
    ensures Visibility(Unset, x) == Visibility(Metric, x)
    ensures FromKelvin(Unset, x) == FromKelvin(Metric, x)
    ensures UnitsFlag(Unset) == UnitsFlag(Metric)
    ensures forall initial :: Temperature(initial, Unset, x) == Temperature(initial, Metric, x)
  {
  }

  // ---------------------------------------------------------------------------
  // Wind direction.

  datatype Compass = N | NE | E | SE | S | SW | W | NW

  /** The eight points, clockwise from north. */
  const Points: seq<Compass> := [N, NE, E, SE, S, SW, W, NW]

  /** The point 180 degrees away. */
  function Opposite(c: Compass): (r: Compass)
    ensures r != c
  {
    match c
    case N => S case NE => SW case E => W case SE => NW
    case S => N case SW => NE case W => E case NW => SE
  }

  /** The next point clockwise. */
  function Clockwise(c: Compass): Compass {
    match c
    case N => NE case NE => E case E => SE case SE => S
    case S => SW case SW => W case W => NW case NW => N
  }

  /**
   * The conventional compass point for a heading in [0, 360): the sector
   * (45k - 22.5, 45k + 22.5] is labelled `Points[k mod 8]`.
   */
  function Conventional(deg: real): Compass
    requires 0.0 <= deg < 360.0
  {
    var k := -((22.5 - deg) / 45.0).Floor;
    Points[k % 8]
  }

  /**
   * The headings `getWindDirection` leaves unlabelled: negative ones, those
   * above 359.9, and the open gap of width 0.1 after each sector boundary.
   */
  predicate InGap(deg: real) {
    var x := deg - 22.5;
    var m := x - 45.0 * (x / 45.0).Floor as real;
    deg < 0.0 || deg > 359.9 || (22.5 < deg < 337.6 && 0.0 < m < 0.1)
  }

  /** `getWindDirection`: a compass degree bucketed into eight labels. */
  function WindDirection(deg: real): (r: Option<Compass>)
    ensures r.Some? ==> 0.0 <= deg <= 359.9
  {
    if (337.6 <= deg <= 359.9) || (0.0 <= deg <= 22.5) then Some(S)
    else if 22.6 <= deg <= 67.5 then Some(SW)
    else if 67.6 <= deg <= 112.5 then Some(W)
    else if 112.6 <= deg <= 157.5 then Some(NW)
    else if 157.6 <= deg <= 202.5 then Some(N)
    else if 202.6 <= deg <= 247.5 then Some(NE)
    else if 247.6 <= deg <= 292.5 then Some(E)
    else if 292.6 <= deg <= 337.5 then Some(SE)
    else None
  }

  /** Exactly the headings in the gaps get no label. */
  lemma WindDirectionGaps(deg: real)
    ensures WindDirection(deg).None? <==> InGap(deg)
  {
  }

  /** Every label `getWindDirection` gives is the conventional point rotated by 180 degrees. */
  lemma WindDirectionRotated(deg: real)
    requires WindDirection(deg).Some?
    ensures 0.0 <= deg < 360.0 && WindDirection(deg).value == Opposite(Conventional(deg))
  {
  }

  /** Across each sector boundary the label advances one point clockwise. */
  lemma WindDirectionBoundaries(k: nat)
    requires k < 8
    ensures WindDirection(22.5 + 45.0 * k as real).Some?
    ensures WindDirection(22.6 + 45.0 * k as real)
         == Some(Clockwise(WindDirection(22.5 + 45.0 * k as real).value))
  {
  }

  // ---------------------------------------------------------------------------
  // Unit selection and toggling.

  const ImperialCountries: seq<string> := ["United States of America", "Myanmar", "Liberia"]

  /** The units `setUnits` picks for a detected country name. */
  function UnitsForCountry(countryName: string): (u: UnitSystem)
    ensures u != Unset
    ensures u == Imperial <==> exists name <- ImperialCountries :: Includes(countryName, name)
  {
    if Includes(countryName, "United States of America")
       || Includes(countryName, "Myanmar")
       || Includes(countryName, "Liberia")
    then Imperial else Metric
  }

  /** The value `toggleUnits` gives `units`. */
  function Toggled(u: UnitSystem): (r: UnitSystem)
    ensures r != Unset
    ensures r == Imperial <==> u != Imperial
  {
    if u == Imperial then Metric else Imperial
  }

  /** Two toggles restore a set value; from the unset state they end at METRIC. */
  lemma ToggleTwice(u: UnitSystem)
    ensures u != Unset ==> Toggled(Toggled(u)) == u
    ensures Toggled(Toggled(Unset)) == Metric
    ensures Shown(Toggled(Toggled(u))) == Shown(u)
    ensures Shown(Toggled(u)) != Shown(u)
  {
  }

  /** The `units` query flag of `getWeatherData`. */
  function UnitsFlag(units: UnitSystem): (flag: string)
    ensures flag == "imperial" <==> units == Imperial
    ensures flag == "metric" <==> units != Imperial
  {
    if units == Imperial then "imperial" else "metric"
  }

  /**
   * The temperature the provider reports for a true Celsius temperature `c`
   * when the detailed request carries `flag`: Fahrenheit for "imperial" and
   * Celsius for anything else. This is what the model assumes of the provider;
   * read in the scale the flag names, the reply is `c` again.
   */
  function Reported(c: real, flag: string): (t: real)
    ensures InCelsius(t, if flag == "imperial" then Imperial else Metric) == c
  {
    if flag == "imperial" then CelsiusToFahrenheit(c) else c
  }

  /**
   * As written, a search takes its flag from `units`, while `getTemperature`
   * reads the reply in the `initialUnits` scale: a page set up in IMPERIAL,
   * toggled to METRIC, then searched, shows 20 degrees Celsius as -6.67.
   */
  lemma SearchAfterToggleMisreadsForecast()
    ensures Reported(20.0, UnitsFlag(Metric)) == 20.0
    ensures Temperature(Imperial, Metric, Reported(20.0, UnitsFlag(Metric))) == Some(-60.0 / 9.0)
    ensures InCelsius(-60.0 / 9.0, Shown(Metric)) != 20.0
  {
  }

  /**
   * The same for every temperature: once the units are toggled, the reply
   * requested with the flag of `units` is shown as the true temperature only
   * at -40, where the two scales meet.
   */
  lemma AsWrittenFlagMisreadsAfterToggle(initial: UnitSystem, c: real)
    requires initial != Unset
    ensures var units := Toggled(initial);
      var r := Temperature(initial, units, Reported(c, UnitsFlag(units)));
      r.Some? && (InCelsius(r.value, Shown(units)) == c <==> c == -40.0)
  {
    var units := Toggled(initial);
    var shown := InCelsius(Temperature(initial, units, Reported(c, UnitsFlag(units))).value, Shown(units));
    if initial == Imperial {
      assert shown == (c - 32.0) * (5.0 / 9.0);
    } else {
      assert shown == CelsiusToFahrenheit(c);
    }
  }

  /**
   * The corrected request: with the flag taken from `initialUnits`, every
   * shown temperature is the true one, in any unit state.
   */
  lemma InitialUnitsFlagShowsTrueTemperature(initial: UnitSystem, units: UnitSystem, c: real)
    requires initial != Unset
    ensures var r := Temperature(initial, units, Reported(c, UnitsFlag(initial)));
      r.Some? && InCelsius(r.value, Shown(units)) == c
  {
  }

  // ---------------------------------------------------------------------------
  // The object itself.

  /** The fields of the city-name reply that the page reads. */
  datatype CityData = CityData(
    lat: real, lon: real,
    feelsLikeKelvin: real, windSpeed: real, windDeg: real,
    pressure: real, visibility: real)

  /** The fields of the detailed reply that the page reads (temperatures in the requested units). */
  datatype ForecastData = ForecastData(
    currentTemp: real, todayHigh: real, todayLow: real, windGust: Option<real>)

  class Weather {
    var initialUnits: UnitSystem
    var units: UnitSystem
    /** The last city reply; `None` for the initial '' and for an unusable reply. */
    var cityData: Option<CityData>
    /** The last detailed reply; `None` for the initial '' and for an unusable reply. */
    var forecastData: Option<ForecastData>
    var latitude: real
    var longitude: real

    constructor ()
      ensures initialUnits == Unset && units == Unset
      ensures cityData == None && forecastData == None
      ensures latitude == 0.0 && longitude == 0.0
    {
      initialUnits, units := Unset, Unset;
      cityData, forecastData := None, None;
      latitude, longitude := 0.0, 0.0;
    }

    /** `setUnits`: both fields from the detected country name. */
    method SetUnits(countryName: string)
      modifies this
      ensures initialUnits == units == UnitsForCountry(countryName)
      ensures cityData == old(cityData) && forecastData == old(forecastData)
      ensures latitude == old(latitude) && longitude == old(longitude)
    {
      if Includes(countryName, "United States of America")
         || Includes(countryName, "Myanmar")
         || Includes(countryName, "Liberia") {
        initialUnits := Imperial;
        units := Imperial;
      } else {
        initialUnits := Metric;
        units := Metric;
      }
    }

    /** `toggleUnits`: flips `units` only. */
    method ToggleUnits()
      modifies this
      ensures units == Toggled(old(units))
      ensures initialUnits == old(initialUnits)
      ensures cityData == old(cityData) && forecastData == old(forecastData)
      ensures latitude == old(latitude) && longitude == old(longitude)
    {
      if units == Imperial {
        units := Metric;
      } else {
        units := Imperial;
      }
    }

    method SetCityData(data: Option<CityData>)
      modifies this`cityData
      ensures cityData == data
    {
      cityData := data;
    }

    method SetForecastData(data: Option<ForecastData>)
      modifies this`forecastData
      ensures forecastData == data
    {
      forecastData := data;
    }

    method SetLatitude(lat: real)
      modifies this`latitude
      ensures latitude == lat
    {
      latitude := lat;
    }

    method SetLongitude(lon: real)
      modifies this`longitude
      ensures longitude == lon
    {
      longitude := lon;
    }
  }

  /** Toggling twice leaves the unit fields as the display sees them. */
  method ToggleTwiceRestores(w: Weather)
    modifies w
    ensures w.initialUnits == old(w.initialUnits) && Shown(w.units) == Shown(old(w.units))
    ensures old(w.units) != Unset ==> w.units == old(w.units)
  {
    w.ToggleUnits();
    w.ToggleUnits();
    ToggleTwice(old(w.units));
  }
}
