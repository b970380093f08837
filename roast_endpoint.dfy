/** The deployed roast endpoint: the order of its checks, the prompt built from the
    request's weather, the use of the first reply part's text, and the removal of
    Markdown code fences before the text is parsed as JSON. */
module RoastEndpoint {
  import opened Common
  import opened Http

  const Path := "/api/generate-roast"
  const DefaultModel := "gemini-2.0-flash"
  const MissingWeather := "Missing weather data"
  const NoText := "No text response from model"
  const Fallback := "Roast generation failed."

  /** `VITE_GEMINI_TEXT_MODEL || GEMINI_TEXT_MODEL || "gemini-2.0-flash"`. */
  function Model(env: Env): string
  {
    FirstSet(env.viteModel, env.model, DefaultModel)
  }

  // ---------------------------------------------------------------------------
  // Code fences

  const Fence := "```"
  const Opener := "```jso"

  /** `replace(/```json?\n?/g, "")`: each match, scanning left to right, is removed. */
  function RemoveOpeners(s: string): string
    decreases |s|
  {
    if s == [] then []
    else if StartsWith(s, Opener) then
      var k := if |s| > 6 && s[6] == 'n' then 7 else 6;
      var k' := if |s| > k && s[k] == '\n' then k + 1 else k;
      RemoveOpeners(s[k'..])
    else [s[0]] + RemoveOpeners(s[1..])
  }

  /** `replace(/```/g, "")`. */
  function RemoveFences(s: string): string
    decreases |s|
  {
    if s == [] then []
    else if StartsWith(s, Fence) then RemoveFences(s[3..])
    else [s[0]] + RemoveFences(s[1..])
  }

  /** The text handed to `JSON.parse`: trimmed, and stripped of fences only when it
      starts with one. */
  function CleanJson(text: string): (r: string)
    ensures !StartsWith(Trim(text), Fence) ==> r == Trim(text)
  {
    var t := Trim(text);
    if StartsWith(t, Fence) then Trim(RemoveFences(RemoveOpeners(t))) else t
  }

  /** A first character other than a backtick is kept by the fence removal. */
  lemma RemoveFencesHead(s: string)
    requires s != [] && s[0] != '`'
    ensures RemoveFences(s) == [s[0]] + RemoveFences(s[1..])
  {
    assert Fence[0] == '`';
  }

  /** A first character other than a backtick is kept by the opener removal. */
  lemma RemoveOpenersHead(s: string)
    requires s != [] && s[0] != '`'
    ensures RemoveOpeners(s) == [s[0]] + RemoveOpeners(s[1..])
  {
    assert Opener[0] == '`';
  }

  /** No run of three backticks survives: a run of `k` backticks leaves `k mod 3`, and
      removing backticks never joins two runs. */
  lemma {:induction false} NoFenceLeft(s: string)
    ensures !Contains(RemoveFences(s), Fence)
    decreases |s|
  {
    if s == [] {
    } else if StartsWith(s, Fence) {
      NoFenceLeft(s[3..]);
    } else {
      var rest := RemoveFences(s[1..]);
      NoFenceLeft(s[1..]);
      var r := [s[0]] + rest;
      assert r[1..] == rest;
      if s[0] == '`' && |s| >= 2 {
        if s[1] != '`' {
          RemoveFencesHead(s[1..]);
          assert r[1] == s[1];
        } else if |s| == 2 {
          assert rest == [s[1]] + RemoveFences(s[2..]);
          assert |r| == 2;
        } else {
          assert s[2] != '`';
          assert !StartsWith(s[1..], Fence);
          assert rest == [s[1]] + RemoveFences(s[2..]);
          RemoveFencesHead(s[2..]);
          assert r[2] == s[2];
        }
      }
      assert !StartsWith(r, Fence);
    }
  }

  /** Once stripped, the text holds no code fence. */
  lemma CleanedHasNoFence(text: string)
    requires StartsWith(Trim(text), Fence)
    ensures !Contains(CleanJson(text), Fence)
  {
    var stripped := RemoveFences(RemoveOpeners(Trim(text)));
    NoFenceLeft(RemoveOpeners(Trim(text)));
    if Contains(Trim(stripped), Fence) {
      TrimContains(stripped, Fence);
    }
  }

  /** Text without backticks passes through the opener removal unchanged. */
  lemma {:induction false} PlainPrefixKeptByOpeners(a: string, b: string)
    requires '`' !in a
    ensures RemoveOpeners(a + b) == a + RemoveOpeners(b)
    decreases |a|
  {
    if a == [] {
      assert a + b == b;
    } else {
      var t := a + b;
      assert t[0] == a[0] && t[1..] == a[1..] + b;
      assert a[0] in a;
      assert '`' !in a[1..] by {
        forall c | c in a[1..]
          ensures c in a
        {
        }
      }
      RemoveOpenersHead(t);
      PlainPrefixKeptByOpeners(a[1..], b);
      assert RemoveOpeners(t) == [a[0]] + (a[1..] + RemoveOpeners(b));
      assert [a[0]] + (a[1..] + RemoveOpeners(b)) == a + RemoveOpeners(b);
    }
  }

  /** Text without backticks passes through the fence removal unchanged. */
  lemma {:induction false} PlainPrefixKeptByFences(a: string, b: string)
    requires '`' !in a
    ensures RemoveFences(a + b) == a + RemoveFences(b)
    decreases |a|
  {
    if a == [] {
      assert a + b == b;
    } else {
      var t := a + b;
      assert t[0] == a[0] && t[1..] == a[1..] + b;
      assert a[0] in a;
      assert '`' !in a[1..] by {
        forall c | c in a[1..]
          ensures c in a
        {
        }
      }
      RemoveFencesHead(t);
      PlainPrefixKeptByFences(a[1..], b);
      assert RemoveFences(t) == [a[0]] + (a[1..] + RemoveFences(b));
      assert [a[0]] + (a[1..] + RemoveFences(b)) == a + RemoveFences(b);
    }
  }

  /** The opener line ```` ```json ```` with its newline is removed whole. */
  lemma OpenerLineRemoved(tail: string)
    ensures RemoveOpeners("```json\n" + tail) == RemoveOpeners(tail)
  {
    var text := "```json\n" + tail;
    assert text[..6] == Opener && text[6] == 'n' && text[7] == '\n';
    assert text[8..] == tail;
  }

  /** A closing fence on its own line: the opener removal keeps it, the fence removal
      leaves the newline. */
  lemma ClosingLine()
    ensures RemoveOpeners("\n" + Fence) == "\n" + Fence
    ensures RemoveFences("\n" + Fence) == "\n"
  {
    PlainPrefixKeptByOpeners("\n", Fence);
    PlainPrefixKeptByFences("\n", Fence);
    assert Fence[3..] == [];
    assert !StartsWith(Fence, Opener);
    assert Fence[1..] == "``" && Fence[2..] == "`";
  }

  lemma NewlineIsBlank()
    ensures AllSpace("\n")
  {
    assert forall k :: 0 <= k < |"\n"| ==> "\n"[k] == '\n';
  }

  /** A reply fenced as ```` ```json ```` on its own line yields its body, trimmed, as
      long as the body has no backtick. */
  lemma FencedReplyRoundTrip(body: string)
    requires '`' !in body
    ensures CleanJson("```json\n" + body + "\n```") == Trim(body)
  {
    var text := "```json\n" + body + "\n```";
    assert text == "```json\n" + (body + ("\n" + Fence));
    TrimOfTrimmed(text);
    assert StartsWith(text, Fence);
    OpenerLineRemoved(body + ("\n" + Fence));
    PlainPrefixKeptByOpeners(body, "\n" + Fence);
    ClosingLine();
    PlainPrefixKeptByFences(body, "\n" + Fence);
    assert RemoveFences(RemoveOpeners(text)) == body + "\n";
    NewlineIsBlank();
    TrimDropsTrailingSpace(body, "\n");
  }

  // ---------------------------------------------------------------------------
  // The prompt

  const DegreesC := "\U{00B0}C"
  /** The degree sign as the deployed file spells it: its UTF-8 bytes read as Latin-1. */
  const MisencodedDegreesC := "\U{00C2}\U{00B0}C"

  const PromptIntro :=
    "You are a savage, witty comedian who "
    + "roasts cities based on their weather. "
    + "Generate a JSON response with these "
    + "exact fields:\n\n{\n  \"roast\": \"A 2-3 "
    + "sentence BRUTAL but funny roast about "
  const PromptOutro :=
    " m/s. Make it specific to the city's "
    + "culture/stereotypes and the weather. Be "
    + "savage but not offensive. Make it "
    + "something people would screenshot and "
    + "share on Twitter.\",\n  \"vibe\": \"A 3-5 "
    + "word vibe/mood description like 'Main "
    + "Character Energy' or 'Cozy Blanket "
    + "Vibes' or 'Touch Grass Weather'\",\n  "
    + "\"emoji\": \"A single emoji that captures "
    + "the vibe\",\n  \"shareText\": \"A short, "
    + "punchy tweet-ready version (under 200 "
    + "chars) that includes the city name and "
    + "is highly shareable\",\n  \"personality\": "
    + "\"A fun weather personality type like "
    + "'Sunshine Optimist' or 'Rain Romantic' "
    + "or 'Cold Heart' based on what weather "
    + "they searched\"\n}\n\nIMPORTANT: Return "
    + "ONLY valid JSON, no markdown, no code "
    + "blocks, just the raw JSON object."

  /** The prompt's fixed text around its six values, with a given degree sign. */
  function PromptText(degrees: string): seq<string>
  {
    [PromptIntro, ", ", "'s weather. Current conditions: ", degrees + ", ", ", ",
     "% humidity, wind ", PromptOutro]
  }

  /** The six destructured fields as the template prints them: `show` is `${...}`,
      which prints an absent field as "undefined". */
  function PromptValues(weather: Option<Json>, show: Option<Json> -> string): seq<string>
  {
    [show(Field(weather, "city")), show(Field(weather, "country")), show(Field(weather, "temperature")),
     show(Field(weather, "description")), show(Field(weather, "humidity")), show(Field(weather, "windSpeed"))]
  }

  /** The prompt as the deployed file writes it, with the misencoded degree sign. */
  function RoastPromptAsWritten(weather: Option<Json>, show: Option<Json> -> string): string
  {
    Interleave(PromptText(MisencodedDegreesC), PromptValues(weather, show))
  }

  /** The prompt with the degree sign intended, as the development server writes it. */
  function RoastPrompt(weather: Option<Json>, show: Option<Json> -> string): string
  {
    Interleave(PromptText(DegreesC), PromptValues(weather, show))
  }

  /** Two templates agreeing before their `i`-th text and differing in that text's
      first character fill in to different strings. */
  lemma {:induction false} InterleaveDiffers(a: seq<string>, b: seq<string>, values: seq<string>, i: nat)
    requires |a| == |b| == |values| + 1 && i < |a|
    requires a[..i] == b[..i] && a[i] != [] && b[i] != [] && a[i][0] != b[i][0]
    ensures Interleave(a, values) != Interleave(b, values)
  {
    if i == 0 {
      InterleaveStartsWithText(a, values);
      InterleaveStartsWithText(b, values);
      assert Interleave(a, values)[0] == a[0][0];
      assert Interleave(b, values)[0] == b[0][0];
    } else {
      assert a[0] == b[0];
      assert a[1..][..i - 1] == b[1..][..i - 1];
      InterleaveDiffers(a[1..], b[1..], values[1..], i - 1);
      var x, y := Interleave(a[1..], values[1..]), Interleave(b[1..], values[1..]);
      var p := a[0] + values[0];
      assert Interleave(a, values) == p + x;
      assert Interleave(b, values) == p + y;
      assert (p + x)[|p|..] == x && (p + y)[|p|..] == y;
    }
  }

  /** Whatever the weather, the deployed prompt is not the intended one: it sends the
      temperature followed by "Â°C". */
  lemma AsWrittenPromptMisencodesDegrees(weather: Option<Json>, show: Option<Json> -> string)
    ensures RoastPromptAsWritten(weather, show) != RoastPrompt(weather, show)
    ensures Contains(RoastPromptAsWritten(weather, show), show(Field(weather, "temperature")) + MisencodedDegreesC)
  {
    var a, b := PromptText(MisencodedDegreesC), PromptText(DegreesC);
    var v := PromptValues(weather, show);
    assert a[..3] == b[..3];
    assert a[3][0] == '\U{00C2}' && b[3][0] == '\U{00B0}';
    InterleaveDiffers(a, b, v, 3);
    SixValuesMentioned(a, v, MisencodedDegreesC);
  }

  /** A template of seven texts whose fourth starts with `degrees` names each of its
      six values, the third followed by `degrees`. */
  lemma SixValuesMentioned(texts: seq<string>, values: seq<string>, degrees: string)
    requires |texts| == 7 && |values| == 6 && texts[3] == degrees + ", "
    ensures var p := Interleave(texts, values);
            && Contains(p, values[0]) && Contains(p, values[1]) && Contains(p, values[2] + degrees)
            && Contains(p, values[3]) && Contains(p, values[4]) && Contains(p, values[5])
  {
    var p := Interleave(texts, values);
    ValueThenText(texts, values, 0);
    ContainsPrefixOf(p, values[0], texts[1]);
    ValueThenText(texts, values, 1);
    ContainsPrefixOf(p, values[1], texts[2]);
    ValueThenText(texts, values, 2);
    assert values[2] + texts[3] == (values[2] + degrees) + ", ";
    ContainsPrefixOf(p, values[2] + degrees, ", ");
    ValueThenText(texts, values, 3);
    ContainsPrefixOf(p, values[3], texts[4]);
    ValueThenText(texts, values, 4);
    ContainsPrefixOf(p, values[4], texts[5]);
    ValueThenText(texts, values, 5);
    ContainsPrefixOf(p, values[5], texts[6]);
  }

  /** The prompt names the city, the country, the description, the humidity and the
      wind speed, and gives the temperature in degrees Celsius. */
  lemma RoastPromptMentionsWeather(weather: Option<Json>, show: Option<Json> -> string)
    ensures var p := RoastPrompt(weather, show);
            && Contains(p, show(Field(weather, "city")))
            && Contains(p, show(Field(weather, "country")))
            && Contains(p, show(Field(weather, "temperature")) + DegreesC)
            && Contains(p, show(Field(weather, "description")))
            && Contains(p, show(Field(weather, "humidity")))
            && Contains(p, show(Field(weather, "windSpeed")))
  {
    SixValuesMentioned(PromptText(DegreesC), PromptValues(weather, show), DegreesC);
  }

  // ---------------------------------------------------------------------------
  // The handler

  /** The reply once the model was called: the first part's text, cleaned and parsed. */
  function TextReply(outcome: GenOutcome, parse: string -> Result<Json>): Reply
  {
    match outcome
    case Threw(m) => Reply(500, None, Text(ErrorText(m, Fallback)))
    case Returned(parts) =>
      if parts.None? || parts.value == [] || parts.value[0].text.None? then Reply(500, None, Text(NoText))
      else match parse(CleanJson(parts.value[0].text.value))
        case Err(m) => Reply(500, None, Text(m))
        case Ok(v) => Reply(200, Some(JsonType), JsonText(v))
  }

  /** `handler`: `parse` is `JSON.parse`, `show` the template's printing of a value,
      and `generate` the model, called with the prompt as this file writes it, the
      misencoded degree sign included. */
  function HandlerReply(env: Env, req: Request, parse: string -> Result<Json>,
                        show: Option<Json> -> string, generate: string -> GenOutcome): Reply
  {
    if req.verb != "POST" then Reply(405, None, Text(MethodNotAllowed))
    else if !HasClient(env) then Reply(500, None, Text(MissingKey))
    else
      var weather := Field(ReadBody(req.body, req.chunks, parse), "weather");
      if !JsonTruthy(weather) then Reply(400, None, Text(MissingWeather))
      else TextReply(generate(RoastPromptAsWritten(weather, show)), parse)
  }

  const MissingKey := "Server misconfigured: missing Gemini API key"

  /** The checks in order: 405, then 500 for a missing key, then 400 when the body has
      no truthy `weather`, which includes an empty or unparsable body. */
  lemma CheckOrder(env: Env, req: Request, parse: string -> Result<Json>,
                   show: Option<Json> -> string, generate: string -> GenOutcome)
    ensures req.verb != "POST" ==> HandlerReply(env, req, parse, show, generate) == Reply(405, None, Text(MethodNotAllowed))
    ensures req.verb == "POST" && !HasClient(env) ==>
      HandlerReply(env, req, parse, show, generate) == Reply(500, None, Text(MissingKey))
    ensures req.verb == "POST" && HasClient(env) && !JsonTruthy(req.body)
            && (req.chunks == [] || parse(Concat(req.chunks)).Err?) ==>
      HandlerReply(env, req, parse, show, generate) == Reply(400, None, Text(MissingWeather))
    ensures HandlerReply(env, req, parse, show, generate).status == 400 <==>
      req.verb == "POST" && HasClient(env) && !JsonTruthy(Field(ReadBody(req.body, req.chunks, parse), "weather"))
  {
  }

  /** After the call: only the first part is read; a missing part or text is a 500 with
      a fixed message, text that does not parse a 500 with the parser's message, and
      parsed text a 200 JSON reply carrying the parsed value. */
  lemma ReplyFromFirstPart(parts: seq<Part>, more: seq<Part>, parse: string -> Result<Json>)
    requires parts != []
    ensures TextReply(Returned(Some(parts + more)), parse) == TextReply(Returned(Some(parts)), parse)
    ensures parts[0].text.None? ==> TextReply(Returned(Some(parts)), parse) == Reply(500, None, Text(NoText))
    ensures parts[0].text.Some? ==> var r := TextReply(Returned(Some(parts)), parse);
      var parsed := parse(CleanJson(parts[0].text.value));
      && (parsed.Err? ==> r == Reply(500, None, Text(parsed.message)))
      && (parsed.Ok? ==> r == Reply(200, Some(JsonType), JsonText(parsed.value)))
  {
    assert (parts + more)[0] == parts[0];
  }

  /** `handler` writing to the response object. */
  method Handle(env: Env, req: Request, parse: string -> Result<Json>,
                show: Option<Json> -> string, generate: string -> GenOutcome, res: Response)
    requires res.Fresh()
    modifies res
    ensures res.Written() == Some(HandlerReply(env, req, parse, show, generate))
  {
    if req.verb != "POST" {
      res.SetStatus(405);
      res.End(Text(MethodNotAllowed));
      return;
    }
    if !HasClient(env) {
      res.SetStatus(500);
      res.End(Text(MissingKey));
      return;
    }
    var body := ReadJsonBody(req.body, req.chunks, parse);
    var weather := Field(body, "weather");
    if !JsonTruthy(weather) {
      res.SetStatus(400);
      res.End(Text(MissingWeather));
      return;
    }
    WriteTextReply(generate(RoastPromptAsWritten(weather, show)), parse, res);
  }

  /** The `try` block once the model was called: writes the reply for its outcome. */
  method WriteTextReply(outcome: GenOutcome, parse: string -> Result<Json>, res: Response)
    requires res.Fresh()
    modifies res
    ensures res.Written() == Some(TextReply(outcome, parse))
  {
    match outcome
    case Threw(m) =>
      res.SetStatus(500);
      res.End(Text(ErrorText(m, Fallback)));
    case Returned(parts) =>
      if parts.None? || parts.value == [] || parts.value[0].text.None? {
        res.SetStatus(500);
        res.End(Text(NoText));
        return;
      }
      var jsonText := Trim(parts.value[0].text.value);
      if StartsWith(jsonText, Fence) {
        jsonText := Trim(RemoveFences(RemoveOpeners(jsonText)));
      }
      match parse(jsonText)
      case Err(m) =>
        res.SetStatus(500);
        res.End(Text(m));
      case Ok(v) =>
        res.SetContentType(JsonType);
        res.SetStatus(200);
        res.End(JsonText(v));
  }
}
