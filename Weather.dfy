/** The weather widget (app/components/weatherBox.tsx): the chosen city's
    coordinates, and the two captions derived from the fetched weather code
    and temperature. The fetch itself is not modelled; its two readings are
    parameters, `None` standing for the `null` they hold before a fetch
    succeeds. */
module Weather {
  import opened Optional

  /** One entry of the city picker. */
  datatype City = City(name: string, latitude: real, longitude: real)

  const CanadianCities: seq<City> := [
    City("Toronto", 43.6532, -79.3832),
    City("Vancouver", 49.2827, -123.1207),
    City("Montreal", 45.5019, -73.5674),
    City("Calgary", 51.0447, -114.0719),
    City("Edmonton", 53.5461, -113.4938),
    City("Ottawa", 45.4215, -75.6972),
    City("Winnipeg", 49.8954, -97.1385),
    City("Quebec City", 46.8139, -71.208),
    City("Halifax", 44.6488, -63.5752)
  ]

  /** `cities.find(c => c.name === name)`: the first city with that name, or
      nothing when no city has it. */
  function FindCity(cities: seq<City>, name: string): (r: Option<City>)
    ensures r.None? <==> forall i :: 0 <= i < |cities| ==> cities[i].name != name
    ensures r.Some? ==> exists i :: 0 <= i < |cities| && cities[i] == r.value && r.value.name == name
                          && forall j :: 0 <= j < i ==> cities[j].name != name
  {
    if cities == [] then None
    else if cities[0].name == name then Some(cities[0])
    else
      var r := FindCity(cities[1..], name);
      if r.Some? then
        ghost var i :| 0 <= i < |cities[1..]| && cities[1..][i] == r.value && r.value.name == name
                       && forall j :: 0 <= j < i ==> cities[1..][j].name != name;
        assert cities[i + 1] == r.value;
        r
      else r
  }

  /** The city the widget fetches for: the picked one, or Toronto (the first
      entry) when no entry has the picked name. */
  function SelectedCity(selected: string): (c: City)
    ensures c in CanadianCities
    ensures (exists i :: 0 <= i < |CanadianCities| && CanadianCities[i].name == selected) ==> c.name == selected
    ensures (forall i :: 0 <= i < |CanadianCities| ==> CanadianCities[i].name != selected) ==> c == CanadianCities[0]
  {
    var found := FindCity(CanadianCities, selected);
    if found.Some? then found.value else CanadianCities[0]
  }

  /** The picker's start value, Toronto, is found as itself. */
  lemma SelectedCityStart()
    ensures SelectedCity("Toronto") == City("Toronto", 43.6532, -79.3832)
  {
  }

  /** A name no entry has (here the empty one) falls back to Toronto. */
  lemma SelectedCityFallback()
    ensures SelectedCity("") == CanadianCities[0]
  {
    assert FindCity(CanadianCities[8..], "") == None;
    assert FindCity(CanadianCities[7..], "") == None;
    assert FindCity(CanadianCities[6..], "") == None;
    assert FindCity(CanadianCities[5..], "") == None;
    assert FindCity(CanadianCities[4..], "") == None;
    assert FindCity(CanadianCities[3..], "") == None;
    assert FindCity(CanadianCities[2..], "") == None;
    assert FindCity(CanadianCities[1..], "") == None;
    assert FindCity(CanadianCities[0..], "") == None;
  }

  /** `getWeatherMessage` as written: the first test, `!weatherCode`, is true
      for `null` and also for 0, so code 0 gets the empty caption. */
  function WeatherMessage(code: Option<int>): (m: string)
    ensures m == "" <==> code == None || code == Some(0)
  {
    if code == None || code.value == 0 then ""
    else if code.value == 0 then "Clear and sunny"
    else if code.value == 1 || code.value == 2 then "Partly cloudy"
    else if code.value == 3 then "Cloudy"
    else if 51 <= code.value <= 67 then "Drizzling"
    else if 71 <= code.value <= 77 then "Snowing"
    else if code.value >= 80 then "Rain showers"
    else "Weather conditions unknown"
  }

  /** The caption each code range gets; the ranges do not overlap, so exactly
      one caption applies to every non-zero code. */
  lemma WeatherMessageByRange(c: int)
    requires c != 0
    ensures (c == 1 || c == 2) <==> WeatherMessage(Some(c)) == "Partly cloudy"
    ensures c == 3 <==> WeatherMessage(Some(c)) == "Cloudy"
    ensures 51 <= c <= 67 <==> WeatherMessage(Some(c)) == "Drizzling"
    ensures 71 <= c <= 77 <==> WeatherMessage(Some(c)) == "Snowing"
    ensures c >= 80 <==> WeatherMessage(Some(c)) == "Rain showers"
    ensures (c < 0 || 4 <= c <= 50 || 68 <= c <= 70 || 78 <= c <= 79)
        <==> WeatherMessage(Some(c)) == "Weather conditions unknown"
  {
  }

  /** "Clear and sunny" is never shown: its only code is caught first. */
  lemma ClearAndSunnyUnreachable(code: Option<int>)
    ensures WeatherMessage(code) != "Clear and sunny"
  {
  }

  /** `getWeatherMessage` with the null test it evidently means
      (`weatherCode === null`): code 0 reads "Clear and sunny" and every other
      reading keeps its caption. */
  function WeatherMessageNullChecked(code: Option<int>): (m: string)
    ensures code == Some(0) ==> m == "Clear and sunny"
    ensures code != Some(0) ==> m == WeatherMessage(code)
    ensures m == "" <==> code == None
  {
    if code == None then ""
    else if code.value == 0 then "Clear and sunny"
    else WeatherMessage(code)
  }

  const BoneCold: string := "It's Bone-Cold! Wear Extra Layers"
  const Freezing: string := "It's freezing! Keep Warm"
  const Chilly: string := "Pretty Chilly Out there, Bring a Jacket"
  const Mild: string := "Mild Weather - Dress Comfy"
  const Warm: string := "Warm Day - Stay Hydrated"
  const Hot: string := "It's HOT! Drink Lots of Water"

  /** `getTemperatureAdvice`: strict thresholds at -10, 0, 10, 20 and 30
      degrees Celsius, so a reading on a threshold gets the warmer advice. */
  function TemperatureAdvice(temperature: Option<real>): (a: string)
    ensures temperature == None <==> a == ""
    ensures temperature.Some? ==> (temperature.value < -10.0 <==> a == BoneCold)
    ensures temperature.Some? ==> (-10.0 <= temperature.value < 0.0 <==> a == Freezing)
    ensures temperature.Some? ==> (0.0 <= temperature.value < 10.0 <==> a == Chilly)
    ensures temperature.Some? ==> (10.0 <= temperature.value < 20.0 <==> a == Mild)
    ensures temperature.Some? ==> (20.0 <= temperature.value < 30.0 <==> a == Warm)
    ensures temperature.Some? ==> (30.0 <= temperature.value <==> a == Hot)
  {
    if temperature == None then ""
    else if temperature.value < -10.0 then BoneCold
    else if temperature.value < 0.0 then Freezing
    else if temperature.value < 10.0 then Chilly
    else if temperature.value < 20.0 then Mild
    else if temperature.value < 30.0 then Warm
    else Hot
  }

  /** Where an advice sits from coldest (0) to hottest (5); -1 for any other
      text. */
  function Warmth(advice: string): int {
    if advice == BoneCold then 0
    else if advice == Freezing then 1
    else if advice == Chilly then 2
    else if advice == Mild then 3
    else if advice == Warm then 4
    else if advice == Hot then 5
    else -1
  }

  /** A reading gets one of the six advices, and a warmer reading never gets
      a colder advice. */
  lemma AdviceMonotone(t1: real, t2: real)
    requires t1 <= t2
    ensures 0 <= Warmth(TemperatureAdvice(Some(t1))) <= Warmth(TemperatureAdvice(Some(t2)))
  {
  }

  /** Each threshold belongs to the band above it. */
  lemma AdviceAtThresholds()
    ensures TemperatureAdvice(Some(-10.0)) == Freezing
    ensures TemperatureAdvice(Some(0.0)) == Chilly
    ensures TemperatureAdvice(Some(10.0)) == Mild
    ensures TemperatureAdvice(Some(20.0)) == Warm
    ensures TemperatureAdvice(Some(30.0)) == Hot
  {
  }
}
