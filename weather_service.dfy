/** The OpenWeather client: current weather by city name or by coordinates, and city
    suggestions from the geocoding API, each mapped onto the application's own shapes. */
module WeatherService {
  import opened Common
  import opened WeatherTypes

  const CityRequired := "City is required"
  const CityNotFound := "City not found"
  const LocationNotFound := "Location not found"
  const SuggestionsFailed := "Failed to fetch city suggestions"
  const SuggestionLimit := 5
  const UnknownDescription := "Unknown"
  const DefaultIcon := "01d"

  /** One entry of the `weather` array of the current-weather reply; either member
      may be missing. */
  datatype Condition = Condition(description: Option<string>, icon: Option<string>)

  /** The members of the current-weather reply the client reads. */
  datatype WeatherReply = WeatherReply(
    name: string,
    country: string,
    temp: real,
    feelsLike: real,
    humidity: real,
    pressure: real,
    conditions: seq<Condition>,
    windSpeed: real,
    visibility: real,
    timezone: int)

  /** One entry of the geocoding reply; `localNames` stands for the members the
      client does not copy. */
  datatype GeoItem = GeoItem(
    name: string,
    country: string,
    state: Option<string>,
    lat: real,
    lon: real,
    localNames: map<string, string>)

  /** What was asked of the API once the URL is decoded again. */
  datatype Query =
    | ByCity(city: string)
    | ByCoords(lat: real, lon: real)
    | Geocode(q: string, limit: nat)

  /** A settled `fetch`: whether the status was OK, and the parsed body. */
  datatype Fetched<T> = Fetched(ok: bool, body: T)

  /** `Math.round`: the nearest integer, halves rounded up. */
  function Round(x: real): (r: int)
    ensures x - 0.5 < r as real <= x + 0.5
  {
    (x + 0.5).Floor
  }

  /** `mapWeatherData`: the first condition supplies description and icon, with fixed
      fallbacks; temperatures are rounded, visibility turned from metres into
      kilometres, and the timestamp is the clock reading `now`. */
  function MapWeatherData(data: WeatherReply, now: int): (w: WeatherData)
    ensures w.city == data.name && w.country == data.country
    ensures w.humidity == data.humidity && w.windSpeed == data.windSpeed
    ensures w.pressure == data.pressure && w.timezone == data.timezone && w.timestamp == now
    ensures w.visibility * 1000.0 == data.visibility
    ensures data.temp - 0.5 < w.temperature as real <= data.temp + 0.5
    ensures data.feelsLike - 0.5 < w.feelsLike as real <= data.feelsLike + 0.5
    ensures w.description == (if data.conditions != [] && data.conditions[0].description.Some?
                              then data.conditions[0].description.value else UnknownDescription)
    ensures w.icon == (if data.conditions != [] && data.conditions[0].icon.Some?
                       then data.conditions[0].icon.value else DefaultIcon)
  {
    var condition := if data.conditions == [] then None else Some(data.conditions[0]);
    WeatherData(
      city := data.name,
      country := data.country,
      temperature := Round(data.temp),
      feelsLike := Round(data.feelsLike),
      description := if condition.Some? && condition.value.description.Some?
                     then condition.value.description.value else UnknownDescription,
      humidity := data.humidity,
      windSpeed := data.windSpeed,
      pressure := data.pressure,
      visibility := data.visibility / 1000.0,
      icon := if condition.Some? && condition.value.icon.Some? then condition.value.icon.value else DefaultIcon,
      timezone := data.timezone,
      timestamp := now)
  }

  /** Only the first condition counts: the others may be anything. */
  lemma LaterConditionsIgnored(data: WeatherReply, more: seq<Condition>, now: int)
    requires data.conditions != []
    ensures MapWeatherData(data.(conditions := data.conditions[..1] + more), now) == MapWeatherData(data, now)
  {
  }

  /** `fetchByCity`: `fetch` answers the query the client sends. */
  function FetchByCity(city: string, fetch: Query -> Fetched<WeatherReply>, now: int): (r: Result<WeatherData>)
    ensures AllSpace(city) ==> r == Err(CityRequired)
    ensures !AllSpace(city) && !fetch(ByCity(Trim(city))).ok ==> r == Err(CityNotFound)
    ensures !AllSpace(city) && fetch(ByCity(Trim(city))).ok ==>
      r == Ok(MapWeatherData(fetch(ByCity(Trim(city))).body, now))
  {
    TrimEmptyIffBlank(city);
    var trimmed := Trim(city);
    if trimmed == [] then Err(CityRequired)
    else
      var response := fetch(ByCity(trimmed));
      if !response.ok then Err(CityNotFound) else Ok(MapWeatherData(response.body, now))
  }

  /** The reply depends on the city only through its trimmed form. */
  lemma SameTrimSameReply(a: string, b: string, fetch: Query -> Fetched<WeatherReply>, now: int)
    requires Trim(a) == Trim(b)
    ensures FetchByCity(a, fetch, now) == FetchByCity(b, fetch, now)
  {
    TrimEmptyIffBlank(a);
    TrimEmptyIffBlank(b);
  }

  /** White space around the city changes nothing: the API sees the trimmed name. */
  lemma CityPaddingIgnored(before: string, city: string, after: string,
                           fetch: Query -> Fetched<WeatherReply>, now: int)
    requires AllSpace(before) && AllSpace(after)
    ensures FetchByCity(before + city + after, fetch, now) == FetchByCity(city, fetch, now)
  {
    var padded := before + city + after;
    assert padded == before + (city + after);
    TrimDropsLeadingSpace(before, city + after);
    TrimDropsTrailingSpace(city, after);
    SameTrimSameReply(padded, city, fetch, now);
  }

  /** A blank city is refused before any request: the reply does not depend on what
      the API would have said. */
  lemma BlankCityNoRequest(city: string, fetch: Query -> Fetched<WeatherReply>,
                           other: Query -> Fetched<WeatherReply>, now: int)
    requires AllSpace(city)
    ensures FetchByCity(city, fetch, now) == FetchByCity(city, other, now) == Err(CityRequired)
  {
  }

  /** `fetchByCoords`: no check on the coordinates. */
  function FetchByCoords(lat: real, lon: real, fetch: Query -> Fetched<WeatherReply>, now: int): (r: Result<WeatherData>)
    ensures r.Err? <==> !fetch(ByCoords(lat, lon)).ok
    ensures r.Err? ==> r.message == LocationNotFound
    ensures r.Ok? ==> r.value == MapWeatherData(fetch(ByCoords(lat, lon)).body, now)
  {
    var response := fetch(ByCoords(lat, lon));
    if !response.ok then Err(LocationNotFound) else Ok(MapWeatherData(response.body, now))
  }

  /** The copy of one geocoding entry. */
  function ToSuggestion(item: GeoItem): (s: CitySuggestion)
    ensures s.name == item.name && s.country == item.country && s.state == item.state
    ensures s.lat == item.lat && s.lon == item.lon
  {
    CitySuggestion(item.name, item.country, item.state, item.lat, item.lon)
  }

  /** `data.map(...)`. */
  function ToSuggestions(items: seq<GeoItem>): (r: seq<CitySuggestion>)
    ensures |r| == |items|
    ensures forall i :: 0 <= i < |items| ==> r[i] == ToSuggestion(items[i])
  {
    if items == [] then [] else [ToSuggestion(items[0])] + ToSuggestions(items[1..])
  }

  /** `fetchCitySuggestions`: the body is None when it is not an array. */
  function FetchCitySuggestions(query: string, fetch: Query -> Fetched<Option<seq<GeoItem>>>)
    : (r: Result<seq<CitySuggestion>>)
    ensures AllSpace(query) ==> r == Ok([])
    ensures !AllSpace(query) ==> var response := fetch(Geocode(Trim(query), SuggestionLimit));
      && (r.Err? <==> !response.ok)
      && (r.Err? ==> r.message == SuggestionsFailed)
      && (r.Ok? && response.body.None? ==> r.value == [])
      && (r.Ok? && response.body.Some? ==> r.value == ToSuggestions(response.body.value))
  {
    TrimEmptyIffBlank(query);
    var trimmed := Trim(query);
    if trimmed == [] then Ok([])
    else
      var response := fetch(Geocode(trimmed, SuggestionLimit));
      if !response.ok then Err(SuggestionsFailed)
      else match response.body
        case None => Ok([])
        case Some(items) => Ok(ToSuggestions(items))
  }

  /** The one request for suggestions asks for at most five, for the trimmed query: two
      APIs that agree on that request give the same suggestions; a blank query makes no
      request at all. */
  lemma SuggestionRequest(query: string, fetch: Query -> Fetched<Option<seq<GeoItem>>>,
                          other: Query -> Fetched<Option<seq<GeoItem>>>)
    requires !AllSpace(query) ==>
      fetch(Geocode(Trim(query), SuggestionLimit)) == other(Geocode(Trim(query), SuggestionLimit))
    ensures FetchCitySuggestions(query, fetch) == FetchCitySuggestions(query, other)
  {
  }

  /** The suggestions keep the reply's order: a reply split in two gives the two
      lists of suggestions one after the other. */
  lemma {:induction false} SuggestionsKeepOrder(a: seq<GeoItem>, b: seq<GeoItem>)
    ensures ToSuggestions(a + b) == ToSuggestions(a) + ToSuggestions(b)
  {
    if a != [] {
      assert (a + b)[1..] == a[1..] + b;
      SuggestionsKeepOrder(a[1..], b);
    } else {
      assert a + b == b;
    }
  }
}
