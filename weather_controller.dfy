/** The page's weather state: the current data, whether a search is running, and the
    error text, driven by searches by city name and by coordinates. */
module WeatherController {
  import opened Common
  import opened WeatherTypes
  import WeatherService

  const CitySearchFailed := "City not found. Please try again."
  const CoordsSearchFailed := "Unable to fetch weather for your location."

  /** The hook's three state cells. A search is split at its `await`: the part before
      the service call, and the part after it settles. */
  class Controller {
    var weatherData: Option<WeatherData>
    var loading: bool
    var error: string

    constructor ()
      ensures weatherData.None? && !loading && error == ""
    {
      weatherData := None;
      loading := false;
      error := "";
    }

    /** `clearError`: only the error changes. */
    method ClearError()
      modifies this
      ensures error == "" && weatherData == old(weatherData) && loading == old(loading)
    {
      error := "";
    }

    /** `setCustomError`: shows the message in place of any data. */
    method SetCustomError(message: string)
      modifies this
      ensures error == message && weatherData.None? && loading == old(loading)
    {
      error := message;
      weatherData := None;
    }

    /** `searchByCity` up to the service call: a blank city returns at once and touches
        nothing; otherwise the trimmed city is what the service is asked for. */
    method BeginCitySearch(city: string) returns (request: Option<string>)
      modifies this
      ensures AllSpace(city) ==> request.None? && weatherData == old(weatherData)
                                 && loading == old(loading) && error == old(error)
      ensures !AllSpace(city) ==> request == Some(Trim(city)) && loading && error == ""
                                  && weatherData == old(weatherData)
    {
      TrimEmptyIffBlank(city);
      var trimmed := Trim(city);
      if trimmed == [] {
        return None;
      }
      loading := true;
      error := "";
      request := Some(trimmed);
    }

    /** `searchByCoords` up to the service call: no check on the input. */
    method BeginCoordsSearch()
      modifies this
      ensures loading && error == "" && weatherData == old(weatherData)
    {
      loading := true;
      error := "";
    }

    /** The part after the `await`, shared by both searches: data on success; the
        message, or `fallback`, and no data on failure; loading off either way. */
    method Finish(outcome: Outcome<WeatherData>, fallback: string) returns (data: Option<WeatherData>)
      modifies this
      ensures !loading
      ensures outcome.Fulfilled? ==> data == Some(outcome.value) && weatherData == data && error == old(error)
      ensures outcome.Thrown? ==> data.None? && weatherData.None? && error == ErrorText(outcome.message, fallback)
    {
      loading := false;
      match outcome
      case Fulfilled(v) =>
        weatherData := Some(v);
        data := Some(v);
      case Thrown(m) =>
        error := ErrorText(m, fallback);
        weatherData := None;
        data := None;
    }

    method FinishCitySearch(outcome: Outcome<WeatherData>) returns (data: Option<WeatherData>)
      modifies this
      ensures !loading
      ensures outcome.Fulfilled? ==> data == Some(outcome.value) && weatherData == data && error == old(error)
      ensures outcome.Thrown? ==> data.None? && weatherData.None? && error == ErrorText(outcome.message, CitySearchFailed)
    {
      data := Finish(outcome, CitySearchFailed);
    }

    method FinishCoordsSearch(outcome: Outcome<WeatherData>) returns (data: Option<WeatherData>)
      modifies this
      ensures !loading
      ensures outcome.Fulfilled? ==> data == Some(outcome.value) && weatherData == data && error == old(error)
      ensures outcome.Thrown? ==> data.None? && weatherData.None? && error == ErrorText(outcome.message, CoordsSearchFailed)
    {
      data := Finish(outcome, CoordsSearchFailed);
    }
  }

  /** The service trims again what the hook already trimmed, which changes nothing:
      the hook's request gets the reply the raw city would have got. */
  lemma TrimmedRequestSameReply(city: string, fetch: WeatherService.Query -> WeatherService.Fetched<WeatherService.WeatherReply>,
                                now: int)
    requires !AllSpace(city)
    ensures WeatherService.FetchByCity(Trim(city), fetch, now) == WeatherService.FetchByCity(city, fetch, now)
  {
    var t := Trim(city);
    TrimEmptyIffBlank(city);
    TrimIsTrimmed(city);
    assert t != [] && Trim(t) == t;
    TrimEmptyIffBlank(t);
    assert !AllSpace(t);
  }

  /** A whole city search against the service: a blank city gives nothing and changes
      nothing; otherwise the hook ends holding what the service answered for the
      trimmed city, or its error. */
  method SearchByCity(c: Controller, city: string,
                      fetch: WeatherService.Query -> WeatherService.Fetched<WeatherService.WeatherReply>, now: int)
    returns (data: Option<WeatherData>)
    modifies c
    ensures AllSpace(city) ==> data.None? && c.weatherData == old(c.weatherData) && c.error == old(c.error)
                               && c.loading == old(c.loading)
    ensures !c.loading || AllSpace(city)
    ensures !AllSpace(city) ==> match WeatherService.FetchByCity(city, fetch, now)
      case Ok(w) => data == Some(w) && c.weatherData == data && c.error == ""
      case Err(m) => data.None? && c.weatherData.None? && c.error == m
  {
    var request := c.BeginCitySearch(city);
    if request.None? {
      return None;
    }
    TrimmedRequestSameReply(city, fetch, now);
    var outcome := match WeatherService.FetchByCity(request.value, fetch, now)
      case Ok(w) => Fulfilled(w)
      case Err(m) => Thrown(Some(m));
    data := c.FinishCitySearch(outcome);
  }
}
