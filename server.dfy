/** The proxy: the `/generate` handler's chain of checks and the response
    it shapes from the upstream image API's answer, the fixed `/health`,
    `/styles` and 404 responses, and the order in which the application's
    middleware and routes see a request. Nothing here keeps state between
    requests. */
module Server {
  import opened Options
  import opened JsText
  import opened Base64

  const DataUriPrefix: string := "data:image/png;base64,"

  const MissingKeyError: string := "API key not configured. Please set CLIPDROP_API_KEY in your .env file"
  const PromptRequiredError: string := "Prompt is required"
  const UpstreamFailurePrefix: string := "API call failed: "
  const InternalError: string := "Internal server error"
  const MiddlewareError: string := "Something went wrong!"
  const NotFoundError: string := "Endpoint not found"
  /** What calling `trim` on a value that is not a string throws. */
  const NoTrimMessage: string := "prompt.trim is not a function"

  // ---------------------------------------------------------------------
  // Requests, upstream answers and responses

  /** The `prompt` member of the parsed body: missing, a string, or some
      other JSON value, of which only its truthiness matters here. */
  datatype PromptField = Absent | Str(text: string) | NonString(truthy: bool)

  /** The members of the parsed body the handler reads. */
  datatype GenerateBody = GenerateBody(prompt: PromptField, style: Option<string>, size: Option<string>)

  /** The one call made upstream: the key sent in `x-api-key` and the only
      member of the JSON body, `prompt`. */
  datatype UpstreamRequest = UpstreamRequest(apiKey: string, prompt: string)

  /** How the upstream exchange ends: the image bytes of an ok response, a
      response that is not ok with its status line and body text, or an
      exception anywhere in the exchange. A response that is not ok has a
      status outside 200-299; the type does not enforce that. */
  datatype Upstream =
    | Delivered(bytes: seq<byte>)
    | HttpError(status: nat, statusText: string, body: string)
    | Thrown(message: string)

  datatype StyleEntry = StyleEntry(id: string, name: string, description: string)

  /** The JSON bodies the application writes. */
  datatype Body =
    | ErrorBody(error: string)
    | ErrorDetails(error: string, details: string)
    | ErrorMessage(error: string, message: string)
    | ImageBody(image: string, prompt: string, timestamp: string)
    | HealthBody(status: string, timestamp: string, apiKey: string)
    | StylesBody(styles: seq<StyleEntry>)
    | NoContent

  datatype Response = Response(status: nat, body: Body)

  /** What a handler does with a request: write a response, or throw before
      its try block, which leaves the request to the framework. */
  datatype Handled = Responded(response: Response) | Threw(message: string)

  /** One `/generate` request: the upstream call it made, if any, and how
      it was handled. */
  datatype Exchange = Exchange(sent: Option<UpstreamRequest>, handled: Handled)

  // ---------------------------------------------------------------------
  // POST /generate

  /** `CLIPDROP_API_KEY` is set to a non-empty value. */
  predicate KeyConfigured(apiKey: Option<string>) {
    Truthy(apiKey)
  }

  /** `!prompt || prompt.trim().length === 0` for a prompt whose `trim` can
      be called: absent, falsy, or only white space. */
  predicate PromptBlank(p: PromptField) {
    match p
    case Absent => true
    case NonString(truthy) => !truthy
    case Str(text) => AllSpace(text)
  }

  /** The `data:` URI the success response carries: the PNG prefix, then
      the base64 text of the bytes, four characters per started group of
      three. */
  function DataUri(bytes: seq<byte>): (uri: string)
    ensures |uri| == |DataUriPrefix| + 4 * ((|bytes| + 2) / 3)
    ensures uri[..|DataUriPrefix|] == DataUriPrefix
  {
    DataUriPrefix + Encode(bytes)
  }

  /** The response for an upstream answer to a request that was sent. */
  function ShapeReply(rawPrompt: string, upstream: Upstream, now: string): (r: Response)
    ensures r.status == 200 <==> upstream.Delivered? || (upstream.HttpError? && upstream.status == 200)
    ensures upstream.Delivered? ==> r == Response(200, ImageBody(DataUri(upstream.bytes), rawPrompt, now))
    ensures upstream.HttpError? ==>
      r == Response(upstream.status,
                    ErrorDetails(UpstreamFailurePrefix + Decimal(upstream.status) + " " + upstream.statusText, upstream.body))
    ensures upstream.Thrown? ==> r == Response(500, ErrorMessage(InternalError, upstream.message))
  {
    match upstream
    case Delivered(bytes) => Response(200, ImageBody(DataUri(bytes), rawPrompt, now))
    case HttpError(status, statusText, body) =>
      Response(status, ErrorDetails(UpstreamFailurePrefix + Decimal(status) + " " + statusText, body))
    case Thrown(message) => Response(500, ErrorMessage(InternalError, message))
  }

  /** The `/generate` handler. The key is checked before the prompt; only a
      request that passes both is sent upstream, with the trimmed prompt
      alone; `style` and `size` are read and never used. */
  function Generate(apiKey: Option<string>, body: GenerateBody, upstream: Upstream, now: string): (x: Exchange)
    ensures x.sent.Some? <==> KeyConfigured(apiKey) && body.prompt.Str? && !AllSpace(body.prompt.text)
    ensures x.sent.Some? ==> x.sent.value == UpstreamRequest(apiKey.value, Trim(body.prompt.text))
    ensures x.handled.Threw? <==> KeyConfigured(apiKey) && body.prompt == NonString(true)
  {
    if !KeyConfigured(apiKey) then
      Exchange(None, Responded(Response(500, ErrorBody(MissingKeyError))))
    else if body.prompt == NonString(true) then
      Exchange(None, Threw(NoTrimMessage))
    else if PromptBlank(body.prompt) then
      Exchange(None, Responded(Response(400, ErrorBody(PromptRequiredError))))
    else
      var raw := body.prompt.text;
      Exchange(Some(UpstreamRequest(apiKey.value, Trim(raw))), Responded(ShapeReply(raw, upstream, now)))
  }

  /** Without a key the answer is the configuration error, whatever the
      prompt, even an empty or malformed one, and nothing is sent. */
  lemma MissingKeyComesFirst(apiKey: Option<string>, body: GenerateBody, upstream: Upstream, now: string)
    requires !KeyConfigured(apiKey)
    ensures Generate(apiKey, body, upstream, now) == Exchange(None, Responded(Response(500, ErrorBody(MissingKeyError))))
  {
  }

  /** With a key, a missing, falsy or blank prompt is a 400 and nothing is
      sent. */
  lemma BlankPromptRejected(apiKey: Option<string>, body: GenerateBody, upstream: Upstream, now: string)
    requires KeyConfigured(apiKey) && PromptBlank(body.prompt)
    ensures Generate(apiKey, body, upstream, now) == Exchange(None, Responded(Response(400, ErrorBody(PromptRequiredError))))
  {
  }

  /** `style` and `size` never reach the upstream call or the response. */
  lemma StyleAndSizeIgnored(apiKey: Option<string>, prompt: PromptField, style1: Option<string>, size1: Option<string>,
                            style2: Option<string>, size2: Option<string>, upstream: Upstream, now: string)
    ensures Generate(apiKey, GenerateBody(prompt, style1, size1), upstream, now)
         == Generate(apiKey, GenerateBody(prompt, style2, size2), upstream, now)
  {
  }

  /** A request that is not sent does not depend on what upstream would
      have answered. */
  lemma UnsentIgnoresUpstream(apiKey: Option<string>, body: GenerateBody, u1: Upstream, u2: Upstream, now: string)
    requires Generate(apiKey, body, u1, now).sent.None?
    ensures Generate(apiKey, body, u1, now) == Generate(apiKey, body, u2, now)
  {
  }

  lemma MiddleSlice(a: string, b: string, c: string)
    ensures (a + b + c)[|a|..|a| + |b|] == b
  {
    assert (a + b + c)[|a|..|a| + |b|] == (a + b + c)[..|a| + |b|][|a|..];
  }

  /** An upstream response that is not ok is passed on with its own status,
      its status line in `error` and its body text verbatim in `details`. */
  lemma UpstreamErrorForwarded(apiKey: Option<string>, raw: string, style: Option<string>, size: Option<string>,
                               status: nat, statusText: string, text: string, now: string)
    requires KeyConfigured(apiKey) && !AllSpace(raw)
    ensures var x := Generate(apiKey, GenerateBody(Str(raw), style, size), HttpError(status, statusText, text), now);
      && x.handled == Responded(Response(status, ErrorDetails(UpstreamFailurePrefix + Decimal(status) + " " + statusText, text)))
      && DecimalValue(x.handled.response.body.error[|UpstreamFailurePrefix|..|UpstreamFailurePrefix| + |Decimal(status)|]) == status
  {
    var body := GenerateBody(Str(raw), style, size);
    var u := HttpError(status, statusText, text);
    var e := UpstreamFailurePrefix + Decimal(status) + " " + statusText;
    assert Generate(apiKey, body, u, now).handled == Responded(Response(status, ErrorDetails(e, text))) by {
      assert !PromptBlank(body.prompt) && body.prompt != NonString(true);
    }
    assert e[|UpstreamFailurePrefix|..|UpstreamFailurePrefix| + |Decimal(status)|] == Decimal(status) by {
      MiddleSlice(UpstreamFailurePrefix, Decimal(status), " " + statusText);
      assert e == UpstreamFailurePrefix + Decimal(status) + (" " + statusText);
    }
  }

  /** The image bytes a data URI carries, when it is a base64 PNG URI. The
      server never decodes; this reading only states what a client gets. */
  function DataUriBytes(uri: string): Option<seq<byte>> {
    if |uri| >= |DataUriPrefix| && uri[..|DataUriPrefix|] == DataUriPrefix then Decode(uri[|DataUriPrefix|..])
    else None
  }

  /** A successful answer carries exactly the upstream bytes: decoding the
      part after the prefix gives them back, and nothing else decodes to
      them. */
  lemma ImageRoundTrip(bytes: seq<byte>, uri: string)
    ensures DataUriBytes(DataUri(bytes)) == Some(bytes)
    ensures DataUriBytes(uri) == Some(bytes) ==> uri == DataUri(bytes)
  {
    assert DataUri(bytes)[|DataUriPrefix|..] == Encode(bytes);
    DecodeEncode(bytes);
    if DataUriBytes(uri) == Some(bytes) {
      EncodeDecode(uri[|DataUriPrefix|..], bytes);
      assert uri == uri[..|DataUriPrefix|] + uri[|DataUriPrefix|..];
    }
  }

  /** On success the client gets the upstream image and the prompt exactly
      as it arrived, while upstream was sent the trimmed prompt. */
  lemma SuccessShape(apiKey: Option<string>, raw: string, style: Option<string>, size: Option<string>,
                     bytes: seq<byte>, now: string)
    requires KeyConfigured(apiKey) && !AllSpace(raw)
    ensures var x := Generate(apiKey, GenerateBody(Str(raw), style, size), Delivered(bytes), now);
      && x.sent == Some(UpstreamRequest(apiKey.value, Trim(raw)))
      && x.handled.Responded? && x.handled.response.status == 200
      && x.handled.response.body == ImageBody(DataUri(bytes), raw, now)
      && DataUriBytes(x.handled.response.body.image) == Some(bytes)
  {
    ImageRoundTrip(bytes, DataUri(bytes));
  }

  /** The echoed prompt differs from the one sent upstream exactly when the
      prompt arrived with white space around it. */
  lemma EchoIsUntrimmed(apiKey: Option<string>, raw: string, style: Option<string>, size: Option<string>,
                        bytes: seq<byte>, now: string)
    requires KeyConfigured(apiKey) && !AllSpace(raw)
    ensures var x := Generate(apiKey, GenerateBody(Str(raw), style, size), Delivered(bytes), now);
      x.handled.response.body.prompt == x.sent.value.prompt <==> IsTrimmed(raw)
  {
    if IsTrimmed(raw) {
      TrimOfTrimmed(raw);
    }
  }

  /** Any exception in the upstream exchange becomes a 500 carrying its
      message. */
  lemma ThrownIsInternalError(apiKey: Option<string>, raw: string, style: Option<string>, size: Option<string>,
                              message: string, now: string)
    requires KeyConfigured(apiKey) && !AllSpace(raw)
    ensures Generate(apiKey, GenerateBody(Str(raw), style, size), Thrown(message), now).handled
         == Responded(Response(500, ErrorMessage(InternalError, message)))
  {
  }

  // ---------------------------------------------------------------------
  // GET /health and GET /styles

  function Health(apiKey: Option<string>, now: string): (r: Response)
    ensures r.status == 200 && r.body.HealthBody? && r.body.status == "ok" && r.body.timestamp == now
    ensures r.body.apiKey == "configured" <==> KeyConfigured(apiKey)
    ensures r.body.apiKey == "missing" <==> !KeyConfigured(apiKey)
  {
    Response(200, HealthBody("ok", now, if KeyConfigured(apiKey) then "configured" else "missing"))
  }

  const KnownStyles: seq<StyleEntry> := [
    StyleEntry("realistic", "Realistic", "Photorealistic images"),
    StyleEntry("artistic", "Artistic", "Artistic and creative style"),
    StyleEntry("cartoon", "Cartoon", "Cartoon and animated style"),
    StyleEntry("abstract", "Abstract", "Abstract and conceptual")
  ]

  function Styles(): (r: Response)
    ensures r.status == 200 && r.body.StylesBody? && |r.body.styles| == 4
    ensures forall i :: 0 <= i < |r.body.styles| ==> r.body.styles[i].id == ["realistic", "artistic", "cartoon", "abstract"][i]
  {
    Response(200, StylesBody(KnownStyles))
  }

  // ---------------------------------------------------------------------
  // The application: middleware and routes in registration order

  /** The request body as the body parsers leave it: parsed members, or a
      parse error passed to the error middleware. */
  datatype RequestBody = Parsed(body: GenerateBody) | Malformed(message: string)

  datatype HttpRequest = HttpRequest(verb: string, path: string, body: RequestBody)

  /** Where a request ends up. */
  datatype Endpoint = Preflight | BodyError | StaticFile | HealthRoute | GenerateRoute | AliasRoute | StylesRoute | NoRoute

  function LowerAscii(c: char): char {
    if 'A' <= c <= 'Z' then ((c as int) - ('A' as int) + ('a' as int)) as char else c
  }

  /** Equal up to ASCII letter case: the routes are registered without
      `caseSensitive`. */
  predicate SameIgnoringCase(a: string, b: string) {
    |a| == |b| && forall i :: 0 <= i < |a| ==> LowerAscii(a[i]) == LowerAscii(b[i])
  }

  /** A path matches a route when it equals it up to case, with or without
      one trailing slash: the routes are registered without `strict`. */
  predicate PathMatches(path: string, route: string) {
    SameIgnoringCase(path, route) || SameIgnoringCase(path, route + "/")
  }

  predicate IsGetLike(verb: string) {
    verb == "GET" || verb == "HEAD"
  }

  /** The middleware and routes in the order they are registered: CORS
      answers preflight requests, the body parsers hand parse errors on,
      static files are served from the front-end directory (`isStaticFile`
      says whether one exists at the path), then the four routes, then the
      404 handler. */
  function Route(r: HttpRequest, isStaticFile: bool): (e: Endpoint)
    ensures e == Preflight <==> r.verb == "OPTIONS"
    ensures e == BodyError <==> r.verb != "OPTIONS" && r.body.Malformed?
    ensures e == StaticFile <==> r.body.Parsed? && IsGetLike(r.verb) && isStaticFile
    ensures e == HealthRoute <==>
      r.body.Parsed? && IsGetLike(r.verb) && !isStaticFile && PathMatches(r.path, "/health")
    ensures e == GenerateRoute <==> r.body.Parsed? && r.verb == "POST" && PathMatches(r.path, "/generate")
    ensures e == AliasRoute <==>
      r.body.Parsed? && r.verb == "POST" && !PathMatches(r.path, "/generate") && PathMatches(r.path, "/generate-image")
    ensures e == StylesRoute <==>
      r.body.Parsed? && IsGetLike(r.verb) && !isStaticFile && !PathMatches(r.path, "/health") && PathMatches(r.path, "/styles")
    ensures e == NoRoute <==>
      r.verb != "OPTIONS" && r.body.Parsed? && !(IsGetLike(r.verb) && isStaticFile)
      && !(IsGetLike(r.verb) && (PathMatches(r.path, "/health") || PathMatches(r.path, "/styles")))
      && !(r.verb == "POST" && (PathMatches(r.path, "/generate") || PathMatches(r.path, "/generate-image")))
  {
    if r.verb == "OPTIONS" then Preflight
    else if r.body.Malformed? then BodyError
    else if IsGetLike(r.verb) && isStaticFile then StaticFile
    else if IsGetLike(r.verb) && PathMatches(r.path, "/health") then HealthRoute
    else if r.verb == "POST" && PathMatches(r.path, "/generate") then GenerateRoute
    else if r.verb == "POST" && PathMatches(r.path, "/generate-image") then AliasRoute
    else if IsGetLike(r.verb) && PathMatches(r.path, "/styles") then StylesRoute
    else NoRoute
  }

  /** What the application does with a request, for every endpoint but
      static files and the `/generate-image` alias (None for those two). */
  function Handle(r: HttpRequest, isStaticFile: bool, apiKey: Option<string>, upstream: Upstream, now: string): (x: Option<Exchange>)
    ensures x.None? <==> Route(r, isStaticFile) in {StaticFile, AliasRoute}
    ensures x.Some? && x.value.sent.Some? ==> Route(r, isStaticFile) == GenerateRoute
  {
    match Route(r, isStaticFile)
    case Preflight => Some(Exchange(None, Responded(Response(204, NoContent))))
    case BodyError => Some(Exchange(None, Responded(Response(500, ErrorMessage(MiddlewareError, r.body.message)))))
    case HealthRoute => Some(Exchange(None, Responded(Health(apiKey, now))))
    case StylesRoute => Some(Exchange(None, Responded(Styles())))
    case GenerateRoute => Some(Generate(apiKey, r.body.body, upstream, now))
    case NoRoute => Some(Exchange(None, Responded(Response(404, ErrorBody(NotFoundError)))))
    case StaticFile => None
    case AliasRoute => None
  }

  /** Unmatched requests get the 404 body, whatever their verb. */
  lemma UnmatchedIsNotFound(r: HttpRequest, isStaticFile: bool, apiKey: Option<string>, upstream: Upstream, now: string)
    requires Route(r, isStaticFile) == NoRoute
    ensures Handle(r, isStaticFile, apiKey, upstream, now) == Some(Exchange(None, Responded(Response(404, ErrorBody(NotFoundError)))))
  {
  }

  /** Route matching ignores letter case and one trailing slash, so
      "/HEALTH/" reaches the health check; "/healthz" does not. */
  lemma HealthPathVariants()
    ensures PathMatches("/HEALTH/", "/health")
    ensures !PathMatches("/healthz", "/health")
  {
    assert "/health" + "/" == "/health/";
    assert LowerAscii('z') != LowerAscii('/');
    assert "/healthz"[7] == 'z' && "/health/"[7] == '/';
  }
}
