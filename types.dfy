/** The shapes the services and components pass around. Numbers the source keeps
    as JavaScript numbers are `int` where the value is whole by construction
    (rounded temperatures, offsets, timestamps) and `real` otherwise. */
module WeatherTypes {
  import opened Common

  /** A weather snapshot as the weather service returns it. */
  datatype WeatherData = WeatherData(
    city: string,
    country: string,
    temperature: int,
    feelsLike: int,
    description: string,
    humidity: real,
    windSpeed: real,
    pressure: real,
    visibility: real,
    icon: string,
    timezone: int,
    timestamp: int)

  datatype CitySuggestion = CitySuggestion(
    name: string,
    country: string,
    state: Option<string>,
    lat: real,
    lon: real)

  /** What the image-service contract promises its callers. */
  datatype GeneratedImage = GeneratedImage(imageUrl: string, prompt: string)

  datatype WeatherRoast = WeatherRoast(
    roast: string,
    vibe: string,
    emoji: string,
    shareText: string,
    personality: string)

  /** A row of the search-history table, or the local entry built after a generation. */
  datatype SearchEntry = SearchEntry(
    id: Option<string>,
    city: string,
    country: string,
    temperature: int,
    condition: string,
    imageData: Option<string>,
    prompt: Option<string>,
    searchLocation: Option<string>,
    searchedAt: Option<string>)

  /** JavaScript truthiness of an optional string: present and non-empty. */
  predicate Truthy(s: Option<string>)
  {
    s.Some? && s.value != ""
  }

  /** `searchLocation ?? \`${city}, ${country}\``. */
  function ResolvedLocation(searchLocation: Option<string>, city: string, country: string): (r: string)
    ensures searchLocation.Some? ==> r == searchLocation.value
    ensures searchLocation.None? ==> r == city + ", " + country
  {
    match searchLocation
    case Some(l) => l
    case None => city + ", " + country
  }
}
