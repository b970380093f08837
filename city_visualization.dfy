/** The skyline panel: it asks the image service for a picture of the searched city
    once per city (unless retried), never while a request is in flight, shows it, hands
    a history entry to its parent, and offers it for download. */
module CityVisualization {
  import opened Common
  import opened WeatherTypes
  import ImageService
  import SupabaseSync

  const GenerationFailed := "Failed to generate city visualization"
  const SkylineSuffix := "_skyline.png"

  /** How the image-service call settled, as the component reads it: the `imageUrl` and
      `prompt` members of the resolved value (None when the value lacks them), or
      the message of a thrown `Error` (None for anything else thrown). */
  datatype Settled =
    | Resolved(imageUrl: Option<string>, prompt: Option<string>)
    | Rejected(message: Option<string>)

  /** The service as its contract describes it. */
  function Settle(r: Result<GeneratedImage>): (s: Settled)
    ensures r.Ok? ==> s == Resolved(Some(r.value.imageUrl), Some(r.value.prompt))
    ensures r.Err? ==> s == Rejected(Some(r.message))
  {
    match r
    case Ok(g) => Resolved(Some(g.imageUrl), Some(g.prompt))
    case Err(m) => Rejected(Some(m))
  }

  /** The service as written: it resolves to a string, whose `imageUrl` and `prompt`
      members are `undefined`. */
  function SettleAsWritten(r: Result<string>): (s: Settled)
    ensures r.Ok? ==> s == Resolved(None, None)
    ensures r.Err? ==> s == Rejected(Some(r.message))
  {
    match r
    case Ok(_) => Resolved(None, None)
    case Err(m) => Rejected(Some(m))
  }

  /** The object passed to `onImageGenerated`. */
  datatype GeneratedEntry = GeneratedEntry(
    imageData: Option<string>,
    prompt: Option<string>,
    city: string,
    country: string,
    condition: string,
    temperature: int,
    searchedAt: string,
    searchLocation: string)

  /** The entry for a generation that resolved: the condition is the weather's
      description, and `searchedAt` is the clock reading as an ISO string. */
  function EntryFor(weather: WeatherData, imageUrl: Option<string>, prompt: Option<string>,
                    searchLocation: Option<string>, searchedAt: string): (e: GeneratedEntry)
    ensures e.imageData == imageUrl && e.prompt == prompt
    ensures e.city == weather.city && e.country == weather.country
    ensures e.condition == weather.description && e.temperature == weather.temperature
    ensures e.searchLocation == ResolvedLocation(searchLocation, weather.city, weather.country)
  {
    GeneratedEntry(imageUrl, prompt, weather.city, weather.country, weather.description,
                   weather.temperature, searchedAt, ResolvedLocation(searchLocation, weather.city, weather.country))
  }

  /** The download's file name: white-space runs as `_`, lower-cased. */
  function DownloadName(city: string): string
  {
    ToLower(ReplaceSpaceRuns(city, "_")) + SkylineSuffix
  }

  /** The download name is the lower-cased city with its white-space runs as `_`,
      and holds no white space. */
  lemma DownloadNameClean(city: string)
    ensures DownloadName(city) == ReplaceSpaceRuns(ToLower(city), "_") + SkylineSuffix
    ensures forall k :: 0 <= k < |DownloadName(city)| - |SkylineSuffix| ==> !IsSpace(DownloadName(city)[k])
  {
    LowerCommutesWithReplace(city, "_");
    assert ToLower("_") == "_";
    ReplaceSpaceRunsClean(ToLower(city), "_");
  }

  /** With the image service as written, a generation that succeeds still leaves the
      panel without an image: nothing can be downloaded and nothing is saved. With
      the service as its contract describes it, the same reply gives an image and a
      prompt, and the search is saved. */
  lemma AsWrittenServiceLosesImage(weather: WeatherData, prompt: string, reply: ImageService.ImageReply)
    requires ImageService.GenerateCityImageAsWritten(reply).Ok?
    requires prompt != []
    ensures var s := SettleAsWritten(ImageService.GenerateCityImageAsWritten(reply));
      s.Resolved? && !Truthy(s.imageUrl) && !SupabaseSync.Ready(Some(weather), s.imageUrl, s.prompt)
    ensures var s := Settle(ImageService.GenerateCityImage(prompt, reply));
      s.Resolved? && Truthy(s.imageUrl) && SupabaseSync.Ready(Some(weather), s.imageUrl, s.prompt)
  {
    ImageService.ImageReplyChecks(prompt, reply);
  }

  /** The panel's state: the four state cells, the two refs, and the entries handed
      to the parent so far. */
  class Panel {
    var imageUrl: Option<string>
    var prompt: Option<string>
    var loading: bool
    var error: string
    var generating: bool
    var lastCity: Option<string>
    const hasCallback: bool
    var entries: seq<GeneratedEntry>

    /** Loading is shown exactly while a generation is in flight. */
    predicate Valid()
      reads this
    {
      loading == generating
    }

    constructor (hasCallback: bool)
      ensures Valid() && !generating && lastCity.None?
      ensures imageUrl.None? && prompt.None? && error == "" && entries == []
      ensures this.hasCallback == hasCallback
    {
      imageUrl := None;
      prompt := None;
      loading := false;
      error := "";
      generating := false;
      lastCity := None;
      this.hasCallback := hasCallback;
      entries := [];
    }

    /** The synchronous part of `generateImage`: the two guards, then the latch, the
        city and the cleared cells. */
    method Begin(city: string, forceRetry: bool) returns (started: bool)
      requires Valid()
      modifies this
      ensures Valid()
      ensures started <==> !old(generating) && (forceRetry || old(lastCity) != Some(city))
      ensures started ==> generating && lastCity == Some(city) && error == ""
                          && imageUrl.None? && prompt.None? && entries == old(entries)
      ensures !started ==> generating == old(generating) && lastCity == old(lastCity) && error == old(error)
                           && imageUrl == old(imageUrl) && prompt == old(prompt) && entries == old(entries)
    {
      if generating {
        return false;
      }
      if !forceRetry && lastCity == Some(city) {
        return false;
      }
      generating := true;
      lastCity := Some(city);
      loading := true;
      error := "";
      imageUrl := None;
      prompt := None;
      started := true;
    }

    /** The rest of `generateImage`, once the service call settles: the image and
        prompt and the parent's entry on success, the message on failure, and in both
        cases the latch released. The last city stays recorded either way. */
    method Complete(weather: WeatherData, searchLocation: Option<string>, settled: Settled, searchedAt: string)
      requires Valid() && generating
      modifies this
      ensures Valid() && !generating && lastCity == old(lastCity)
      ensures settled.Resolved? ==>
        && imageUrl == settled.imageUrl && prompt == settled.prompt && error == old(error)
        && entries == old(entries) + (if hasCallback then [EntryFor(weather, settled.imageUrl, settled.prompt,
                                                                      searchLocation, searchedAt)] else [])
      ensures settled.Rejected? ==>
        && error == ErrorText(settled.message, GenerationFailed)
        && imageUrl == old(imageUrl) && prompt == old(prompt) && entries == old(entries)
    {
      loading := false;
      generating := false;
      match settled
      case Resolved(url, generatedPrompt) =>
        imageUrl := url;
        prompt := generatedPrompt;
        if hasCallback {
          entries := entries + [EntryFor(weather, url, generatedPrompt, searchLocation, searchedAt)];
        }
      case Rejected(message) =>
        error := ErrorText(message, GenerationFailed);
    }

    /** `handleDownload`: the link's target and file name, or nothing without an image. */
    method Download(city: string) returns (link: Option<(string, string)>)
      ensures link.Some? <==> Truthy(imageUrl)
      ensures link.Some? ==> link.value == (imageUrl.value, DownloadName(city))
    {
      if !Truthy(imageUrl) {
        return None;
      }
      link := Some((imageUrl.value, DownloadName(city)));
    }
  }

  /** One generation per city: after a generation for a city has started, asking
      again for the same city without a retry does nothing, in flight or not. */
  method SecondRequestIgnored(panel: Panel, weather: WeatherData, settled: Settled, searchedAt: string)
    returns (again: bool)
    requires panel.Valid()
    modifies panel
    ensures !again
  {
    var first := panel.Begin(weather.city, false);
    if first {
      var during := panel.Begin(weather.city, false);
      assert !during;
      panel.Complete(weather, None, settled, searchedAt);
    }
    again := panel.Begin(weather.city, false);
  }
}
