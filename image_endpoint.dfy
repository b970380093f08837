/** The deployed image endpoint: the order of its checks, the prompt it accepts, the
    choice of the image part in the model's reply, and the data URL it answers with
    (section 3 of RFC 2397: `data:[<mediatype>][;base64],<data>`). */
module ImageEndpoint {
  import opened Common
  import opened Http

  const Path := "/api/generate-image"
  const DefaultModel := "gemini-2.5-flash-image"
  const DefaultMime := "image/png"
  const MissingKey := "Server misconfigured: missing Gemini API key"
  const MissingPrompt := "Missing prompt"
  const Fallback := "Image generation failed. Check API key and model availability."

  /** `VITE_GEMINI_IMAGE_MODEL || GEMINI_IMAGE_MODEL || "gemini-2.5-flash-image"`. */
  function Model(env: Env): string
  {
    FirstSet(env.viteModel, env.model, DefaultModel)
  }

  /** The prompt sent to the model: the body's `prompt` when it is a string with
      something besides white space, trimmed. */
  function PromptOf(body: Option<Json>): Option<string>
  {
    var p := Field(body, "prompt");
    if p.Some? && p.value.JStr? && Trim(p.value.s) != [] then Some(Trim(p.value.s)) else None
  }

  /** A prompt is accepted exactly when the body's `prompt` is a string that is not
      blank, and what is sent is its trimmed form: non-empty, and unchanged by trimming
      it again. */
  lemma PromptAccepted(body: Option<Json>)
    ensures PromptOf(body).Some? <==>
      (Field(body, "prompt").Some? && Field(body, "prompt").value.JStr? && !AllSpace(Field(body, "prompt").value.s))
    ensures PromptOf(body).Some? ==> var p := PromptOf(body).value;
      && p == Trim(Field(body, "prompt").value.s)
      && p != [] && Trim(p) == p
  {
    var f := Field(body, "prompt");
    if f.Some? && f.value.JStr? {
      TrimEmptyIffBlank(f.value.s);
      TrimIsTrimmed(f.value.s);
    }
  }

  // ---------------------------------------------------------------------------
  // The image part and the data URL

  /** `part.inlineData?.data` is truthy. */
  predicate HasImage(part: Part)
  {
    part.inlineData.Some? && part.inlineData.value.data.Some? && part.inlineData.value.data.value != []
  }

  /** `parts.find(...)`: the position of the first part carrying image data. */
  function FindImagePart(parts: seq<Part>): (r: Option<nat>)
    ensures r.Some? ==> r.value < |parts| && HasImage(parts[r.value])
    ensures r.Some? ==> forall j :: 0 <= j < r.value ==> !HasImage(parts[j])
    ensures r.None? ==> forall j :: 0 <= j < |parts| ==> !HasImage(parts[j])
  {
    if parts == [] then None
    else if HasImage(parts[0]) then Some(0)
    else match FindImagePart(parts[1..])
      case None => None
      case Some(i) => Some(i + 1)
  }

  /** Only the parts up to the first image matter: whatever follows it is ignored. */
  lemma {:induction false} LaterPartsIgnored(parts: seq<Part>, more: seq<Part>)
    requires FindImagePart(parts).Some?
    ensures FindImagePart(parts + more) == FindImagePart(parts)
  {
    if !HasImage(parts[0]) {
      assert (parts + more)[1..] == parts[1..] + more;
      LaterPartsIgnored(parts[1..], more);
    }
  }

  /** The data URL of an image part: its MIME type, or `image/png` when it has none. */
  function DataUrl(d: InlineData): string
    requires d.data.Some?
  {
    "data:" + MimeOf(d) + ";base64," + d.data.value
  }

  function MimeOf(d: InlineData): string
  {
    if d.mimeType.Some? && d.mimeType.value != [] then d.mimeType.value else DefaultMime
  }

  /** A data URL read back per RFC 2397: the media type, whether it is base64, the data. */
  datatype DataUrlParts = DataUrlParts(mediaType: string, base64: bool, data: string)

  const Base64Marker := ";base64"

  /** The position of the first comma. */
  function CommaAt(s: string): (r: Option<nat>)
    ensures r.Some? ==> r.value < |s| && s[r.value] == ',' && ',' !in s[..r.value]
    ensures r.None? ==> ',' !in s
  {
    if s == [] then None
    else if s[0] == ',' then Some(0)
    else match CommaAt(s[1..])
      case None => None
      case Some(i) => Some(i + 1)
  }

  /** Parses `data:[<mediatype>][;base64],<data>`. */
  function ParseDataUrl(url: string): Option<DataUrlParts>
  {
    if !StartsWith(url, "data:") then None
    else
      var rest := url[5..];
      match CommaAt(rest)
      case None => None
      case Some(i) =>
        var header := rest[..i];
        if |header| >= |Base64Marker| && header[|header| - |Base64Marker|..] == Base64Marker
        then Some(DataUrlParts(header[..|header| - |Base64Marker|], true, rest[i + 1..]))
        else Some(DataUrlParts(header, false, rest[i + 1..]))
  }

  /** The assembled URL reads back as a base64 URL of the part's MIME type (defaulting
      to `image/png`) and its data, as long as the MIME type has no comma. */
  lemma DataUrlRoundTrip(d: InlineData)
    requires d.data.Some? && ',' !in MimeOf(d)
    ensures ParseDataUrl(DataUrl(d)) == Some(DataUrlParts(MimeOf(d), true, d.data.value))
  {
    var mime, data := MimeOf(d), d.data.value;
    var url := DataUrl(d);
    var rest := mime + ";base64," + data;
    assert url == "data:" + rest;
    assert url[5..] == rest;
    assert rest == (mime + Base64Marker) + ("," + data);
    assert ',' !in mime + Base64Marker;
    var i := |mime + Base64Marker|;
    assert rest[i] == ',';
    assert ',' !in rest[..i] by { assert rest[..i] == mime + Base64Marker; }
    assert CommaAt(rest) == Some(i) by { CommaUnique(rest, i); }
    assert rest[..i] == mime + Base64Marker;
    assert rest[i + 1..] == data;
  }

  lemma CommaUnique(s: string, i: nat)
    requires i < |s| && s[i] == ',' && ',' !in s[..i]
    ensures CommaAt(s) == Some(i)
  {
    assert s[i] in s;
  }

  // ---------------------------------------------------------------------------
  // The handler

  function NoImage(model: string): string
  {
    "No image returned from model \"" + model + "\". Check server logs."
  }

  /** The reply once the model was called with the prompt. */
  function GenerationReply(model: string, outcome: GenOutcome): Reply
  {
    match outcome
    case Threw(m) => Reply(500, None, Text(ErrorText(m, Fallback)))
    case Returned(parts) =>
      var i := if parts.Some? then FindImagePart(parts.value) else None;
      if i.None? then Reply(502, None, Text(NoImage(model)))
      else Reply(200, Some(JsonType), JsonText(JObj(map["dataUrl" := JStr(DataUrl(parts.value[i.value].inlineData.value))])))
  }

  /** `handler`: `parse` is `JSON.parse`, and `generate` is the model, called with the
      prompt. */
  function HandlerReply(env: Env, req: Request, parse: string -> Result<Json>,
                        generate: string -> GenOutcome): Reply
  {
    if req.verb != "POST" then Reply(405, None, Text(MethodNotAllowed))
    else if !HasClient(env) then Reply(500, None, Text(MissingKey))
    else match PromptOf(ReadBody(req.body, req.chunks, parse))
      case None => Reply(400, None, Text(MissingPrompt))
      case Some(prompt) => GenerationReply(Model(env), generate(prompt))
  }

  /** The checks in order: a wrong method is refused whatever else holds; a missing
      key is reported before the body is looked at; a missing prompt before the model
      is called; after the call only 200, 500 and 502 remain. */
  lemma CheckOrder(env: Env, req: Request, parse: string -> Result<Json>, generate: string -> GenOutcome)
    ensures req.verb != "POST" ==> HandlerReply(env, req, parse, generate) == Reply(405, None, Text(MethodNotAllowed))
    ensures req.verb == "POST" && !HasClient(env) ==>
      HandlerReply(env, req, parse, generate) == Reply(500, None, Text(MissingKey))
    ensures req.verb == "POST" && HasClient(env) && PromptOf(ReadBody(req.body, req.chunks, parse)).None? ==>
      HandlerReply(env, req, parse, generate) == Reply(400, None, Text(MissingPrompt))
  {
  }

  /** A 400 means exactly that the prompt was missing: the method was POST and a client exists. */
  lemma BadRequestMeansMissingPrompt(env: Env, req: Request, parse: string -> Result<Json>, generate: string -> GenOutcome)
    ensures HandlerReply(env, req, parse, generate).status == 400 <==>
      req.verb == "POST" && HasClient(env) && PromptOf(ReadBody(req.body, req.chunks, parse)).None?
  {
    if req.verb == "POST" && HasClient(env) {
      var prompt := PromptOf(ReadBody(req.body, req.chunks, parse));
      if prompt.Some? {
        GenerationStatus(Model(env), generate(prompt.value));
      }
    }
  }

  lemma GenerationStatus(model: string, outcome: GenOutcome)
    ensures GenerationReply(model, outcome).status in {200, 500, 502}
  {
  }

  /** An empty body, or one that does not parse, is a missing prompt. */
  lemma UnreadableBodyIsMissingPrompt(env: Env, req: Request, parse: string -> Result<Json>,
                                      generate: string -> GenOutcome)
    requires req.verb == "POST" && HasClient(env) && !JsonTruthy(req.body)
    requires req.chunks == [] || parse(Concat(req.chunks)).Err?
    ensures HandlerReply(env, req, parse, generate) == Reply(400, None, Text(MissingPrompt))
  {
  }

  /** After the call: the first part with image data makes a 200 JSON reply whose
      `dataUrl` reads back as that part's MIME type (or `image/png`) and data; no such
      part gives 502 naming the model; a throw gives 500 with its message. */
  lemma GenerationOutcomes(model: string, outcome: GenOutcome)
    ensures outcome.Threw? ==> GenerationReply(model, outcome) == Reply(500, None, Text(ErrorText(outcome.message, Fallback)))
    ensures outcome.Returned? && (outcome.parts.None? || FindImagePart(outcome.parts.value).None?) ==>
      GenerationReply(model, outcome) == Reply(502, None, Text(NoImage(model)))
    ensures outcome.Returned? && outcome.parts.Some? && FindImagePart(outcome.parts.value).Some? ==>
      var d := outcome.parts.value[FindImagePart(outcome.parts.value).value].inlineData.value;
      var r := GenerationReply(model, outcome);
      && r.status == 200 && r.contentType == Some(JsonType)
      && r.body == JsonText(JObj(map["dataUrl" := JStr(DataUrl(d))]))
      && (',' !in MimeOf(d) ==> ParseDataUrl(DataUrl(d)) == Some(DataUrlParts(MimeOf(d), true, d.data.value)))
  {
    if outcome.Returned? && outcome.parts.Some? && FindImagePart(outcome.parts.value).Some? {
      var d := outcome.parts.value[FindImagePart(outcome.parts.value).value].inlineData.value;
      if ',' !in MimeOf(d) {
        DataUrlRoundTrip(d);
      }
    }
  }

  /** `handler` writing to the response object. */
  method Handle(env: Env, req: Request, parse: string -> Result<Json>,
                generate: string -> GenOutcome, res: Response)
    requires res.Fresh()
    modifies res
    ensures res.Written() == Some(HandlerReply(env, req, parse, generate))
  {
    if req.verb != "POST" {
      res.SetStatus(405);
      res.End(Text(MethodNotAllowed));
      return;
    }
    if !HasClient(env) {
      res.SetStatus(500);
      res.End(Text(MissingKey));
      return;
    }
    var body := ReadJsonBody(req.body, req.chunks, parse);
    var prompt := PromptOf(body);
    if prompt.None? {
      res.SetStatus(400);
      res.End(Text(MissingPrompt));
      return;
    }
    WriteGenerationReply(Model(env), generate(prompt.value), res);
  }

  /** The `try` block once the model was called: writes the reply for its outcome. */
  method WriteGenerationReply(model: string, outcome: GenOutcome, res: Response)
    requires res.Fresh()
    modifies res
    ensures res.Written() == Some(GenerationReply(model, outcome))
  {
    match outcome
    case Threw(m) =>
      res.SetStatus(500);
      res.End(Text(ErrorText(m, Fallback)));
    case Returned(parts) =>
      var i := if parts.Some? then FindImagePart(parts.value) else None;
      if i.None? {
        res.SetStatus(502);
        res.End(Text(NoImage(model)));
        return;
      }
      var url := DataUrl(parts.value[i.value].inlineData.value);
      res.SetContentType(JsonType);
      res.SetStatus(200);
      res.End(JsonText(JObj(map["dataUrl" := JStr(url)])));
  }
}
