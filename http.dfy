/** What the two serverless endpoints and their development-server copies share:
    JSON values as JavaScript sees them, the incoming request, the parts of the
    generative model's reply, and the response object a handler writes to. */
module Http {
  import opened Common

  /** A value `JSON.parse` can produce. */
  datatype Json =
    | JNull
    | JBool(b: bool)
    | JNum(n: real)
    | JStr(s: string)
    | JArr(items: seq<Json>)
    | JObj(fields: map<string, Json>)

  /** JavaScript truthiness of a value that may be `undefined` (None). JSON cannot
      carry NaN, so a number is falsy exactly when it is zero. */
  predicate JsonTruthy(v: Option<Json>)
  {
    match v
    case None => false
    case Some(j) =>
      match j
      case JNull => false
      case JBool(b) => b
      case JNum(n) => n != 0.0
      case JStr(s) => s != []
      case _ => true
  }

  /** `v?.key`: the member when `v` is an object holding `key`, otherwise `undefined`. */
  function Field(v: Option<Json>, key: string): (r: Option<Json>)
    ensures r.Some? <==> v.Some? && v.value.JObj? && key in v.value.fields
    ensures r.Some? ==> r.value == v.value.fields[key]
  {
    if v.Some? && v.value.JObj? && key in v.value.fields then Some(v.value.fields[key]) else None
  }

  /** An incoming request: its method (`verb`), its URL, the body a platform may already have
      parsed (absent when it did not), and the chunks of the raw body stream. */
  datatype Request = Request(verb: string, url: string, body: Option<Json>, chunks: seq<string>)

  /** The chunks of a body stream, joined. */
  function Concat(chunks: seq<string>): string
  {
    if chunks == [] then [] else Concat(chunks[..|chunks| - 1]) + chunks[|chunks| - 1]
  }

  /** The joined chunks are empty exactly when every chunk is. */
  lemma {:induction false} ConcatEmpty(chunks: seq<string>)
    ensures Concat(chunks) == [] <==> forall k :: 0 <= k < |chunks| ==> chunks[k] == []
  {
    if chunks != [] {
      var n := |chunks|;
      ConcatEmpty(chunks[..n - 1]);
      assert forall k :: 0 <= k < n - 1 ==> chunks[..n - 1][k] == chunks[k];
    }
  }

  /** `readJsonBody` as a value: a truthy pre-parsed body as it is; no chunks at all,
      or text that `parse` (`JSON.parse`) rejects, gives `undefined`. */
  function ReadBody(pre: Option<Json>, chunks: seq<string>, parse: string -> Result<Json>): (r: Option<Json>)
    ensures JsonTruthy(pre) ==> r == pre
    ensures !JsonTruthy(pre) && chunks == [] ==> r.None?
    ensures !JsonTruthy(pre) && chunks != [] ==> (r.Some? <==> parse(Concat(chunks)).Ok?)
    ensures !JsonTruthy(pre) && r.Some? ==> r.value == parse(Concat(chunks)).value
  {
    if JsonTruthy(pre) then pre
    else if chunks == [] then None
    else match parse(Concat(chunks))
      case Ok(v) => Some(v)
      case Err(_) => None
  }

  /** `readJsonBody`: collects the stream's chunks, then parses their concatenation. */
  method ReadJsonBody(pre: Option<Json>, stream: seq<string>, parse: string -> Result<Json>)
    returns (body: Option<Json>)
    ensures body == ReadBody(pre, stream, parse)
  {
    if JsonTruthy(pre) {
      return pre;
    }
    var chunks: seq<string> := [];
    var i := 0;
    while i < |stream|
      invariant 0 <= i <= |stream|
      invariant chunks == stream[..i]
    {
      chunks := chunks + [stream[i]];
      i := i + 1;
    }
    assert stream[..i] == stream;
    if |chunks| == 0 {
      return None;
    }
    match parse(Concat(chunks))
    case Ok(v) => body := Some(v);
    case Err(_) => body := None;
  }

  /** `process.env.A || process.env.B || fallback`. */
  function FirstSet(first: Option<string>, second: Option<string>, fallback: string): (r: string)
    ensures first.Some? && first.value != [] ==> r == first.value
    ensures !(first.Some? && first.value != []) && second.Some? && second.value != [] ==> r == second.value
    ensures !(first.Some? && first.value != []) && !(second.Some? && second.value != []) ==> r == fallback
  {
    if first.Some? && first.value != [] then first.value
    else if second.Some? && second.value != [] then second.value
    else fallback
  }

  /** A handler's environment: the two API-key variables and the two model variables,
      each pair in the order it is consulted. */
  datatype Env = Env(viteKey: Option<string>, key: Option<string>,
                     viteModel: Option<string>, model: Option<string>)

  /** Whether the module built a client (`apiKey ? new GoogleGenAI(...) : null`). */
  predicate HasClient(env: Env)
  {
    FirstSet(env.viteKey, env.key, "") != []
  }

  // ---------------------------------------------------------------------------
  // The generative model's reply

  datatype InlineData = InlineData(data: Option<string>, mimeType: Option<string>)

  /** One content part: inline data and a `text` member, each possibly absent. */
  datatype Part = Part(inlineData: Option<InlineData>, text: Option<string>)

  /** The settled `generateContent` call: it threw (an `Error` with a message, or
      something else), or it returned `candidates?.[0]?.content?.parts`. */
  datatype GenOutcome = Threw(message: Option<string>) | Returned(parts: Option<seq<Part>>)

  // ---------------------------------------------------------------------------
  // The response

  /** The body passed to `res.end`: plain text, or the serialisation of a JSON value. */
  datatype Body = Text(text: string) | JsonText(value: Json)

  /** A finished response: the status, the Content-Type header if one was set, the body. */
  datatype Reply = Reply(status: int, contentType: Option<string>, body: Body)

  const JsonType := "application/json"
  const MethodNotAllowed := "Method not allowed"

  /** The Node response object a handler writes to; its status starts at 200. */
  class Response {
    var statusCode: int
    var contentType: Option<string>
    var sent: Option<Body>

    constructor ()
      ensures statusCode == 200 && contentType.None? && sent.None?
    {
      statusCode := 200;
      contentType := None;
      sent := None;
    }

    /** `res.status(code)` or `res.statusCode = code`. */
    method SetStatus(code: int)
      modifies this
      ensures statusCode == code && contentType == old(contentType) && sent == old(sent)
    {
      statusCode := code;
    }

    /** `res.setHeader("Content-Type", value)`. */
    method SetContentType(value: string)
      modifies this
      ensures contentType == Some(value) && statusCode == old(statusCode) && sent == old(sent)
    {
      contentType := Some(value);
    }

    /** `res.end(body)`. */
    method End(body: Body)
      modifies this
      ensures sent == Some(body) && statusCode == old(statusCode) && contentType == old(contentType)
    {
      sent := Some(body);
    }

    /** The response once ended. */
    function Written(): Option<Reply>
      reads this
    {
      if sent.None? then None else Some(Reply(statusCode, contentType, sent.value))
    }

    predicate Fresh()
      reads this
    {
      statusCode == 200 && contentType.None? && sent.None?
    }
  }
}
