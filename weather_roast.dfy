/** The roast panel's state: the last roast, whether one is being generated, and the
    error text. */
module WeatherRoastHook {
  import opened Common
  import opened WeatherTypes

  const RoastFailed := "Failed to generate roast"

  /** The hook's three state cells; generation is split at its `await`. */
  class RoastState {
    var roast: Option<WeatherRoast>
    var loading: bool
    var error: Option<string>

    constructor ()
      ensures roast.None? && !loading && error.None?
    {
      roast := None;
      loading := false;
      error := None;
    }

    /** `generateRoast` up to the service call. */
    method Begin()
      modifies this
      ensures loading && error.None? && roast == old(roast)
    {
      loading := true;
      error := None;
    }

    /** The part after the `await`: the new roast on success; on failure the message
        or the fallback, with the previous roast still shown; loading off either way. */
    method Finish(outcome: Outcome<WeatherRoast>) returns (result: Option<WeatherRoast>)
      modifies this
      ensures !loading
      ensures outcome.Fulfilled? ==> result == Some(outcome.value) && roast == result && error == old(error)
      ensures outcome.Thrown? ==> result.None? && roast == old(roast) && error == Some(ErrorText(outcome.message, RoastFailed))
    {
      loading := false;
      match outcome
      case Fulfilled(r) =>
        roast := Some(r);
        result := Some(r);
      case Thrown(m) =>
        error := Some(ErrorText(m, RoastFailed));
        result := None;
    }

    /** `clearRoast`: roast and error go; loading is left as it is. */
    method ClearRoast()
      modifies this
      ensures roast.None? && error.None? && loading == old(loading)
    {
      roast := None;
      error := None;
    }
  }

  /** One whole generation: afterwards nothing is loading, and exactly one of a fresh
      roast and an error is shown when it ran from a cleared error. */
  method Generate(state: RoastState, outcome: Outcome<WeatherRoast>) returns (result: Option<WeatherRoast>)
    modifies state
    ensures !state.loading
    ensures result.Some? <==> outcome.Fulfilled?
    ensures result.Some? ==> state.roast == result && state.error.None?
    ensures result.None? ==> state.roast == old(state.roast) && state.error.Some?
  {
    state.Begin();
    result := state.Finish(outcome);
  }
}
