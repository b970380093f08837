/** Saving each finished search (weather, generated image and its prompt) to the
    shared history, at most once for the same signature in a row. */
module SupabaseSync {
  import opened Common
  import opened WeatherTypes

  /** How many leading characters of the image take part in the signature. */
  const ImagePrefix := 48

  /** One call of `saveWeatherSearch`; its outcome is only logged, never read back. */
  datatype SaveRequest = SaveRequest(weather: WeatherData, image: string, prompt: string, location: string)

  function Prefix(image: string): (p: string)
    ensures |p| <= ImagePrefix && |p| <= |image| && p == image[..|p|]
    ensures |image| < ImagePrefix ==> p == image
    ensures |image| >= ImagePrefix ==> |p| == ImagePrefix
  {
    if |image| <= ImagePrefix then image else image[..ImagePrefix]
  }

  /** city, timestamp and the image's first 48 characters, joined by `-`. */
  function Signature(weather: WeatherData, image: string): string
  {
    weather.city + "-" + IntToString(weather.timestamp) + "-" + Prefix(image)
  }

  function SignatureOf(save: SaveRequest): string
  {
    Signature(save.weather, save.image)
  }

  /** Two images that agree on their first 48 characters give the same signature, so
      the second of them is taken for the first. */
  lemma SignatureSeesOnlyPrefix(weather: WeatherData, a: string, b: string)
    requires |a| >= ImagePrefix && |b| >= ImagePrefix && a[..ImagePrefix] == b[..ImagePrefix]
    ensures Signature(weather, a) == Signature(weather, b)
  {
  }

  /** Weather, image and prompt are all present and non-empty. */
  predicate Ready(weather: Option<WeatherData>, image: Option<string>, prompt: Option<string>)
  {
    weather.Some? && Truthy(image) && Truthy(prompt)
  }

  /** The save the effect issues given the last recorded signature, if any. */
  function Decide(last: Option<string>, weather: Option<WeatherData>, image: Option<string>,
                  prompt: Option<string>, searchLocation: Option<string>): (r: Option<SaveRequest>)
    ensures r.Some? <==> Ready(weather, image, prompt) && last != Some(Signature(weather.value, image.value))
    ensures r.Some? ==> r.value == SaveRequest(weather.value, image.value, prompt.value,
                                               ResolvedLocation(searchLocation, weather.value.city, weather.value.country))
  {
    if !Ready(weather, image, prompt) then None
    else if last == Some(Signature(weather.value, image.value)) then None
    else Some(SaveRequest(weather.value, image.value, prompt.value,
                          ResolvedLocation(searchLocation, weather.value.city, weather.value.country)))
  }

  /** Running the effect again on the inputs it just saved issues nothing. */
  lemma NoRepeatSave(last: Option<string>, weather: Option<WeatherData>, image: Option<string>,
                     prompt: Option<string>, searchLocation: Option<string>, laterLocation: Option<string>)
    requires Decide(last, weather, image, prompt, searchLocation).Some?
    ensures var save := Decide(last, weather, image, prompt, searchLocation).value;
      Decide(Some(SignatureOf(save)), weather, image, prompt, laterLocation).None?
  {
  }

  /** Only the last signature is remembered: a search, another, then the first again
      are saved three times. */
  lemma OnlyLastRemembered(w: WeatherData, a: string, b: string, prompt: string)
    requires a != [] && b != [] && prompt != [] && Signature(w, a) != Signature(w, b)
    ensures var first := Decide(None, Some(w), Some(a), Some(prompt), None);
      && first.Some?
      && var second := Decide(Some(SignatureOf(first.value)), Some(w), Some(b), Some(prompt), None);
      && second.Some?
      && Decide(Some(SignatureOf(second.value)), Some(w), Some(a), Some(prompt), None).Some?
  {
  }

  /** No two consecutive saves share a signature. */
  predicate NoRepeatInARow(saves: seq<SaveRequest>)
  {
    forall i :: 0 < i < |saves| ==> SignatureOf(saves[i - 1]) != SignatureOf(saves[i])
  }

  lemma NoRepeatInARowSnoc(saves: seq<SaveRequest>, save: SaveRequest)
    requires NoRepeatInARow(saves)
    requires saves != [] ==> SignatureOf(saves[|saves| - 1]) != SignatureOf(save)
    ensures NoRepeatInARow(saves + [save])
  {
    var t := saves + [save];
    forall i | 0 < i < |t|
      ensures SignatureOf(t[i - 1]) != SignatureOf(t[i])
    {
      if i < |saves| {
        assert t[i - 1] == saves[i - 1] && t[i] == saves[i];
        assert SignatureOf(saves[i - 1]) != SignatureOf(saves[i]);
      } else {
        assert t[i - 1] == saves[|saves| - 1] && t[i] == save;
      }
    }
  }

  /** The hook's state: the `lastSavedSignature` ref, and the saves issued so far. */
  class Sync {
    var lastSaved: Option<string>
    var saves: seq<SaveRequest>

    /** The ref holds the signature of the last save, and no two saves in a row share
        a signature. */
    predicate Valid()
      reads this
    {
      && (saves == [] ==> lastSaved.None?)
      && (saves != [] ==> lastSaved == Some(SignatureOf(saves[|saves| - 1])))
      && NoRepeatInARow(saves)
    }

    constructor ()
      ensures Valid() && lastSaved.None? && saves == []
    {
      lastSaved := None;
      saves := [];
    }

    /** The effect: the signature is recorded before the save goes out, so a save that
        fails is not tried again for the same inputs. */
    method Run(weather: Option<WeatherData>, image: Option<string>, prompt: Option<string>,
               searchLocation: Option<string>) returns (issued: Option<SaveRequest>)
      requires Valid()
      modifies this
      ensures Valid()
      ensures issued == Decide(old(lastSaved), weather, image, prompt, searchLocation)
      ensures issued.Some? ==> lastSaved == Some(SignatureOf(issued.value)) && saves == old(saves) + [issued.value]
      ensures issued.None? ==> lastSaved == old(lastSaved) && saves == old(saves)
    {
      if weather.None? || !Truthy(image) || !Truthy(prompt) {
        return None;
      }
      var w := weather.value;
      var location := ResolvedLocation(searchLocation, w.city, w.country);
      var signature := Signature(w, image.value);
      if lastSaved == Some(signature) {
        return None;
      }
      var save := SaveRequest(w, image.value, prompt.value, location);
      assert SignatureOf(save) == signature;
      NoRepeatInARowSnoc(saves, save);
      lastSaved := Some(signature);
      saves := saves + [save];
      issued := Some(save);
    }
  }
}
