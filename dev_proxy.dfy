/** The development server's copies of the two endpoints: middleware that answers only
    on its own path, reads the raw body with an empty body standing for `{}`, never
    checks for a key, and forwards the prompt untrimmed. */
module DevProxy {
  import opened Common
  import opened Http
  import ImageEndpoint
  import RoastEndpoint

  /** The environment the proxies read: the key only reaches the client's constructor,
      so the replies depend on the two model names alone. */
  datatype DevEnv = DevEnv(imageModel: Option<string>, textModel: Option<string>)

  function ImageModel(env: DevEnv): string
  {
    FirstSet(env.imageModel, None, ImageEndpoint.DefaultModel)
  }

  function TextModel(env: DevEnv): string
  {
    FirstSet(env.textModel, None, RoastEndpoint.DefaultModel)
  }

  /** `Buffer.concat(chunks).toString() || "{}"`. */
  function BodyText(chunks: seq<string>): (r: string)
    ensures r != []
  {
    var t := Concat(chunks);
    if t == [] then "{}" else t
  }

  /** The message of the TypeError thrown by reading `key` off a `null` body. */
  function NullRead(key: string): string
  {
    "Cannot read properties of null (reading '" + key + "')"
  }

  /** `imageHandler`: None when it calls `next()`; `generate` is the model, called with
      the `prompt` value as it came. */
  function ImageProxy(env: DevEnv, req: Request, parse: string -> Result<Json>,
                      generate: Json -> GenOutcome): (r: Option<Reply>)
    ensures r.None? <==> req.url != ImageEndpoint.Path
  {
    if req.url != ImageEndpoint.Path then None
    else if req.verb != "POST" then Some(Reply(405, None, Text(MethodNotAllowed)))
    else Some(match parse(BodyText(req.chunks))
      case Err(m) => Reply(500, None, Text(m))
      case Ok(body) =>
        if body == JNull then Reply(500, None, Text(NullRead("prompt")))
        else
          var prompt := Field(Some(body), "prompt");
          if !JsonTruthy(prompt) then Reply(400, None, Text(ImageEndpoint.MissingPrompt))
          else ImageEndpoint.GenerationReply(ImageModel(env), generate(prompt.value)))
  }

  /** `roastHandler`: None when it calls `next()`. */
  function RoastProxy(env: DevEnv, req: Request, parse: string -> Result<Json>,
                      show: Option<Json> -> string, generate: string -> GenOutcome): (r: Option<Reply>)
    ensures r.None? <==> req.url != RoastEndpoint.Path
  {
    if req.url != RoastEndpoint.Path then None
    else if req.verb != "POST" then Some(Reply(405, None, Text(MethodNotAllowed)))
    else Some(match parse(BodyText(req.chunks))
      case Err(m) => Reply(500, None, Text(m))
      case Ok(body) =>
        if body == JNull then Reply(500, None, Text(NullRead("weather")))
        else
          var weather := Field(Some(body), "weather");
          if !JsonTruthy(weather) then Reply(400, None, Text(RoastEndpoint.MissingWeather))
          else RoastEndpoint.TextReply(generate(RoastEndpoint.RoastPrompt(weather, show)), parse))
  }

  // ---------------------------------------------------------------------------
  // Against the deployed endpoints

  /** A request with no pre-parsed body (or a falsy one), as the deployed platform may
      hand it over. */
  predicate RawRequest(req: Request)
  {
    req.verb == "POST" && !JsonTruthy(req.body)
  }

  /** An empty body is read as `{}`, so both copies of each endpoint report the missing
      field with 400. */
  lemma EmptyBodyIsMissingField(env: DevEnv, deployed: Env, req: Request, parse: string -> Result<Json>,
                                show: Option<Json> -> string, generateJson: Json -> GenOutcome,
                                generate: string -> GenOutcome)
    requires parse("{}") == Ok(JObj(map[])) && parse([]).Err?
    requires RawRequest(req) && HasClient(deployed) && Concat(req.chunks) == []
    ensures req.url == ImageEndpoint.Path ==>
      && ImageProxy(env, req, parse, generateJson) == Some(Reply(400, None, Text(ImageEndpoint.MissingPrompt)))
      && ImageEndpoint.HandlerReply(deployed, req, parse, generate) == Reply(400, None, Text(ImageEndpoint.MissingPrompt))
    ensures req.url == RoastEndpoint.Path ==>
      && RoastProxy(env, req, parse, show, generate) == Some(Reply(400, None, Text(RoastEndpoint.MissingWeather)))
      && RoastEndpoint.HandlerReply(deployed, req, parse, show, generate) == Reply(400, None, Text(RoastEndpoint.MissingWeather))
  {
    var empty: Option<Json> := Some(JObj(map[]));
    assert Field(empty, "prompt").None? && Field(empty, "weather").None?;
    assert ReadBody(req.body, req.chunks, parse).None?;
  }

  /** Body text that does not parse: the development copies answer 500 with the
      parser's message, the deployed ones 400. */
  lemma UnparsableBodyDiffers(env: DevEnv, deployed: Env, req: Request, parse: string -> Result<Json>,
                              show: Option<Json> -> string, generateJson: Json -> GenOutcome,
                              generate: string -> GenOutcome)
    requires RawRequest(req) && HasClient(deployed)
    requires Concat(req.chunks) != [] && parse(Concat(req.chunks)).Err?
    ensures var m := parse(Concat(req.chunks)).message;
      && (req.url == ImageEndpoint.Path ==>
            && ImageProxy(env, req, parse, generateJson) == Some(Reply(500, None, Text(m)))
            && ImageEndpoint.HandlerReply(deployed, req, parse, generate).status == 400)
      && (req.url == RoastEndpoint.Path ==>
            && RoastProxy(env, req, parse, show, generate) == Some(Reply(500, None, Text(m)))
            && RoastEndpoint.HandlerReply(deployed, req, parse, show, generate).status == 400)
  {
    assert req.chunks != [];
  }

  /** A prompt of white space only is forwarded as it is by the development copy,
      while the deployed endpoint refuses it with 400. */
  lemma BlankPromptForwarded(env: DevEnv, deployed: Env, req: Request, parse: string -> Result<Json>,
                             generateJson: Json -> GenOutcome, generate: string -> GenOutcome, blank: string)
    requires RawRequest(req) && HasClient(deployed) && req.url == ImageEndpoint.Path
    requires blank != [] && AllSpace(blank)
    requires Concat(req.chunks) != [] && parse(Concat(req.chunks)).Ok?
    requires Field(Some(parse(Concat(req.chunks)).value), "prompt") == Some(JStr(blank))
    ensures ImageProxy(env, req, parse, generateJson)
            == Some(ImageEndpoint.GenerationReply(ImageModel(env), generateJson(JStr(blank))))
    ensures ImageEndpoint.HandlerReply(deployed, req, parse, generate) == Reply(400, None, Text(ImageEndpoint.MissingPrompt))
  {
    TrimEmptyIffBlank(blank);
    assert req.chunks != [];
  }

  /** A parsed body whose prompt is already trimmed gets the same reply from both copies
      when the models agree and answer the prompt alike. */
  lemma TrimmedPromptAgrees(env: DevEnv, deployed: Env, req: Request, parse: string -> Result<Json>,
                            generateJson: Json -> GenOutcome, generate: string -> GenOutcome, prompt: string)
    requires RawRequest(req) && HasClient(deployed) && req.url == ImageEndpoint.Path
    requires prompt != [] && Trim(prompt) == prompt
    requires Concat(req.chunks) != [] && parse(Concat(req.chunks)).Ok?
    requires Field(Some(parse(Concat(req.chunks)).value), "prompt") == Some(JStr(prompt))
    requires ImageModel(env) == ImageEndpoint.Model(deployed) && generateJson(JStr(prompt)) == generate(prompt)
    ensures ImageProxy(env, req, parse, generateJson) == Some(ImageEndpoint.HandlerReply(deployed, req, parse, generate))
  {
    var body := parse(Concat(req.chunks)).value;
    assert req.chunks != [];
    assert ReadBody(req.body, req.chunks, parse) == Some(body);
    assert ImageEndpoint.PromptOf(Some(body)) == Some(prompt);
    var reply := ImageEndpoint.GenerationReply(ImageModel(env), generate(prompt));
    assert ImageEndpoint.HandlerReply(deployed, req, parse, generate) == reply;
    assert body != JNull && JsonTruthy(Field(Some(body), "prompt"));
  }

  /** A parsed body with a truthy `weather` gets the same reply from both roast copies
      when the model answers the deployed prompt, degree sign misencoded, as it answers
      the development one; the two prompts always differ (`AsWrittenPromptMisencodesDegrees`). */
  lemma RoastAgreesOnWeather(env: DevEnv, deployed: Env, req: Request, parse: string -> Result<Json>,
                             show: Option<Json> -> string, generate: string -> GenOutcome)
    requires RawRequest(req) && HasClient(deployed) && req.url == RoastEndpoint.Path
    requires Concat(req.chunks) != [] && parse(Concat(req.chunks)).Ok?
    requires var weather := Field(Some(parse(Concat(req.chunks)).value), "weather");
      && JsonTruthy(weather)
      && generate(RoastEndpoint.RoastPromptAsWritten(weather, show)) == generate(RoastEndpoint.RoastPrompt(weather, show))
    ensures RoastProxy(env, req, parse, show, generate) == Some(RoastEndpoint.HandlerReply(deployed, req, parse, show, generate))
  {
    assert req.chunks != [];
  }

  /** Without that agreement the copies can differ: each copy's reply is that of the
      model's answer to its own prompt, and a model that echoes its prompt back as the
      reply's text answers the two copies differently. */
  lemma RoastCopiesSendDifferentPrompts(env: DevEnv, deployed: Env, req: Request, parse: string -> Result<Json>,
                                        show: Option<Json> -> string)
    requires RawRequest(req) && HasClient(deployed) && req.url == RoastEndpoint.Path
    requires Concat(req.chunks) != [] && parse(Concat(req.chunks)).Ok?
    requires JsonTruthy(Field(Some(parse(Concat(req.chunks)).value), "weather"))
    ensures var echo := (p: string) => Returned(Some([Part(None, Some(p))]));
      var weather := Field(Some(parse(Concat(req.chunks)).value), "weather");
      && RoastProxy(env, req, parse, show, echo)
         == Some(RoastEndpoint.TextReply(echo(RoastEndpoint.RoastPrompt(weather, show)), parse))
      && RoastEndpoint.HandlerReply(deployed, req, parse, show, echo)
         == RoastEndpoint.TextReply(echo(RoastEndpoint.RoastPromptAsWritten(weather, show)), parse)
      && echo(RoastEndpoint.RoastPrompt(weather, show)) != echo(RoastEndpoint.RoastPromptAsWritten(weather, show))
  {
    assert req.chunks != [];
    var weather := Field(Some(parse(Concat(req.chunks)).value), "weather");
    RoastEndpoint.AsWrittenPromptMisencodesDegrees(weather, show);
  }

  // ---------------------------------------------------------------------------
  // The middleware

  /** Collects the `data` events' chunks and joins them. */
  method CollectBody(stream: seq<string>) returns (text: string)
    ensures text == Concat(stream)
  {
    var chunks: seq<string> := [];
    var i := 0;
    while i < |stream|
      invariant 0 <= i <= |stream|
      invariant chunks == stream[..i]
    {
      chunks := chunks + [stream[i]];
      i := i + 1;
    }
    assert stream[..i] == stream;
    text := Concat(chunks);
  }

  /** `imageHandler` on the response object: it passes the request on, or writes the
      reply; on success it sets only the content type, leaving the status at 200. */
  method HandleImage(env: DevEnv, req: Request, parse: string -> Result<Json>,
                     generate: Json -> GenOutcome, res: Response) returns (passed: bool)
    requires res.Fresh()
    modifies res
    ensures passed <==> req.url != ImageEndpoint.Path
    ensures passed ==> res.Fresh()
    ensures !passed ==> res.Written() == ImageProxy(env, req, parse, generate)
  {
    if req.url != ImageEndpoint.Path {
      return true;
    }
    passed := false;
    if req.verb != "POST" {
      res.SetStatus(405);
      res.End(Text(MethodNotAllowed));
      return;
    }
    var text := CollectBody(req.chunks);
    if text == [] {
      text := "{}";
    }
    match parse(text)
    case Err(m) =>
      res.SetStatus(500);
      res.End(Text(m));
    case Ok(body) =>
      if body == JNull {
        res.SetStatus(500);
        res.End(Text(NullRead("prompt")));
        return;
      }
      var prompt := Field(Some(body), "prompt");
      if !JsonTruthy(prompt) {
        res.SetStatus(400);
        res.End(Text(ImageEndpoint.MissingPrompt));
        return;
      }
      WriteImageReply(ImageModel(env), generate(prompt.value), res);
  }

  /** The `try` block of `imageHandler` once the model was called. */
  method WriteImageReply(model: string, outcome: GenOutcome, res: Response)
    requires res.Fresh()
    modifies res
    ensures res.Written() == Some(ImageEndpoint.GenerationReply(model, outcome))
  {
    match outcome
    case Threw(m) =>
      res.SetStatus(500);
      res.End(Text(ErrorText(m, ImageEndpoint.Fallback)));
    case Returned(parts) =>
      var i := if parts.Some? then ImageEndpoint.FindImagePart(parts.value) else None;
      if i.None? {
        res.SetStatus(502);
        res.End(Text(ImageEndpoint.NoImage(model)));
        return;
      }
      var url := ImageEndpoint.DataUrl(parts.value[i.value].inlineData.value);
      res.SetContentType(JsonType);
      res.End(JsonText(JObj(map["dataUrl" := JStr(url)])));
  }

  /** `roastHandler` on the response object. */
  method HandleRoast(env: DevEnv, req: Request, parse: string -> Result<Json>,
                     show: Option<Json> -> string, generate: string -> GenOutcome, res: Response)
    returns (passed: bool)
    requires res.Fresh()
    modifies res
    ensures passed <==> req.url != RoastEndpoint.Path
    ensures passed ==> res.Fresh()
    ensures !passed ==> res.Written() == RoastProxy(env, req, parse, show, generate)
  {
    if req.url != RoastEndpoint.Path {
      return true;
    }
    passed := false;
    if req.verb != "POST" {
      res.SetStatus(405);
      res.End(Text(MethodNotAllowed));
      return;
    }
    var text := CollectBody(req.chunks);
    if text == [] {
      text := "{}";
    }
    match parse(text)
    case Err(m) =>
      res.SetStatus(500);
      res.End(Text(m));
    case Ok(body) =>
      if body == JNull {
        res.SetStatus(500);
        res.End(Text(NullRead("weather")));
        return;
      }
      var weather := Field(Some(body), "weather");
      if !JsonTruthy(weather) {
        res.SetStatus(400);
        res.End(Text(RoastEndpoint.MissingWeather));
        return;
      }
      WriteRoastReply(generate(RoastEndpoint.RoastPrompt(weather, show)), parse, res);
  }

  /** The `try` block of `roastHandler` once the model was called; on success it sets
      only the content type, leaving the status at 200. */
  method WriteRoastReply(outcome: GenOutcome, parse: string -> Result<Json>, res: Response)
    requires res.Fresh()
    modifies res
    ensures res.Written() == Some(RoastEndpoint.TextReply(outcome, parse))
  {
    match outcome
    case Threw(m) =>
      res.SetStatus(500);
      res.End(Text(ErrorText(m, RoastEndpoint.Fallback)));
    case Returned(parts) =>
      if parts.None? || parts.value == [] || parts.value[0].text.None? {
        res.SetStatus(500);
        res.End(Text(RoastEndpoint.NoText));
        return;
      }
      var jsonText := Trim(parts.value[0].text.value);
      if StartsWith(jsonText, RoastEndpoint.Fence) {
        jsonText := Trim(RoastEndpoint.RemoveFences(RoastEndpoint.RemoveOpeners(jsonText)));
      }
      match parse(jsonText)
      case Err(m) =>
        res.SetStatus(500);
        res.End(Text(m));
      case Ok(v) =>
        res.SetContentType(JsonType);
        res.End(JsonText(v));
  }
}
