/**
 * The Fauna client (src/client.rs): the builder and its defaults, the
 * authorization string `build` derives, the request `build_request`
 * assembles, and the decisions `request` takes on what the transport and the
 * timer deliver. The transport, the timer and the JSON parsers are inputs.
 */
module FaunaClient {
  import opened Wrappers
  import Utf8
  import Decimal

  type byte = Utf8.byte

  // ------------------------------------------------------------ Builder

  const DefaultUri: string := "https://db.fauna.com"

  /** Nanoseconds below one second, the only ones a `Duration` holds. */
  type Nanos = n: nat | n < 1_000_000_000

  /** `std::time::Duration`: whole seconds and the nanoseconds below a second. */
  datatype Duration = Duration(secs: nat, nanos: Nanos)

  const DefaultTimeout: Duration := Duration(60, 0)

  /** A parsed `hyper::Uri`; parsing itself is an input of `Build`. */
  datatype Uri = Uri(text: string)

  /** Whether `HttpsConnector::new` could set up TLS. */
  datatype Connector = ConnectorReady | ConnectorFailed(cause: string)

  datatype BuildError = TlsError(cause: string) | InvalidUri(uri: string)

  /** What a built client keeps; fixed once built. */
  datatype Client = Client(uri: Uri, timeout: Duration, authorization: string)

  /** The bytes handed to base64: the UTF-8 of `"<secret>:"`. */
  function Credentials(secret: string): (b: seq<byte>)
    ensures Utf8.Decode(b) == Some(secret + ":")
  {
    Utf8.DecodeEncode(secret + ":");
    Utf8.Encode(secret + ":")
  }

  class ClientBuilder {
    var uri: string
    var secret: string
    var timeout: Duration

    /** `Client::builder(secret)`: the production endpoint and a 60 second timeout. */
    constructor (secret: string)
      ensures uri == DefaultUri && this.secret == secret && timeout == DefaultTimeout
    {
      uri := DefaultUri;
      this.secret := secret;
      timeout := DefaultTimeout;
    }

    method SetUri(uri: string)
      modifies this
      ensures this.uri == uri && secret == old(secret) && timeout == old(timeout)
    {
      this.uri := uri;
    }

    method SetTimeout(timeout: Duration)
      modifies this
      ensures this.timeout == timeout && uri == old(uri) && secret == old(secret)
    {
      this.timeout := timeout;
    }

    /**
     * `build`: the TLS connector first, then the URI; either failure is the
     * result and no client is made. The authorization is `"Basic "` followed
     * by the base64 of `"<secret>:"`.
     */
    function Build(connector: Connector, parseUri: string -> Option<Uri>, base64: seq<byte> -> string): (r: Result<Client, BuildError>)
      reads this
      ensures connector.ConnectorFailed? ==> r == Err(TlsError(connector.cause))
      ensures connector.ConnectorReady? && parseUri(uri).None? ==> r == Err(InvalidUri(uri))
      ensures r.Ok? <==> connector.ConnectorReady? && parseUri(uri).Some?
      ensures r.Ok? ==> r.value.uri == parseUri(uri).value && r.value.timeout == timeout
      ensures r.Ok? ==> r.value.authorization == "Basic " + base64(Credentials(secret))
    {
      var secretB64 := base64(Credentials(secret));
      match connector
      case ConnectorFailed(cause) => Err(TlsError(cause))
      case ConnectorReady =>
        match parseUri(uri)
        case None => Err(InvalidUri(uri))
        case Some(u) => Ok(Client(u, timeout, "Basic " + secretB64))
    }
  }

  // ------------------------------------------------------------ Request

  datatype Header = Header(name: string, value: string)

  datatype HttpRequest = HttpRequest(verb: string, uri: Uri, headers: seq<Header>, body: seq<byte>)

  /**
   * `hyper::Request::builder()`: method GET and URI `/` until set; headers
   * are appended in call order under their lower-case names.
   */
  class RequestBuilder {
    var verb: string
    var uri: Uri
    var headers: seq<Header>

    constructor ()
      ensures verb == "GET" && uri == Uri("/") && headers == []
    {
      verb := "GET";
      uri := Uri("/");
      headers := [];
    }

    method SetUri(uri: Uri)
      modifies this
      ensures this.uri == uri && verb == old(verb) && headers == old(headers)
    {
      this.uri := uri;
    }

    method SetMethod(verb: string)
      modifies this
      ensures this.verb == verb && uri == old(uri) && headers == old(headers)
    {
      this.verb := verb;
    }

    method AddHeader(name: string, value: string)
      modifies this
      ensures headers == old(headers) + [Header(name, value)]
      ensures verb == old(verb) && uri == old(uri)
    {
      headers := headers + [Header(name, value)];
    }

    method Body(body: seq<byte>) returns (req: HttpRequest)
      ensures req == HttpRequest(verb, uri, headers, body)
    {
      req := HttpRequest(verb, uri, headers, body);
    }
  }

  const ApiVersion: string := "2.1"

  /**
   * `build_request`: a POST of the payload's UTF-8 bytes to the client's URI,
   * whose Content-Length header reads back as the number of bytes sent.
   */
  method BuildRequest(client: Client, payload: string) returns (req: HttpRequest)
    ensures req.verb == "POST" && req.uri == client.uri
    ensures Utf8.Decode(req.body) == Some(payload)
    ensures req.headers == [
      Header("content-length", Decimal.Render(|req.body|)),
      Header("content-type", "application/json"),
      Header("authorization", client.authorization),
      Header("x-faunadb-api-version", ApiVersion)]
    ensures Decimal.Parse(req.headers[0].value) == Some(|req.body|)
  {
    var builder := new RequestBuilder();
    builder.SetUri(client.uri);
    builder.SetMethod("POST");

    var bytes := Utf8.Encode(payload);
    builder.AddHeader("content-length", Decimal.Render(|bytes|));
    builder.AddHeader("content-type", "application/json");
    builder.AddHeader("authorization", client.authorization);
    builder.AddHeader("x-faunadb-api-version", ApiVersion);

    req := builder.Body(bytes);
    Utf8.DecodeEncode(payload);
    Decimal.ParseRender(|bytes|);
  }

  // ----------------------------------------------------------- Response

  /** One entry of the `errors` list a 400 or 404 body carries. */
  datatype FaunaError = FaunaError(code: string, description: string)

  datatype FaunaErrors = FaunaErrors(errors: seq<FaunaError>)

  datatype Error =
    | ConnectionError(cause: string)
    | TimeoutError
    | Unauthorized
    | BadRequest(errors: FaunaErrors)
    | NotFound(errors: FaunaErrors)
    | DatabaseError(body: string)
    | EmptyResponse
    | Other

  /** What the future resolves to, or the panic of an `unwrap`. */
  datatype Outcome<T> = Resolved(result: Result<T, Error>) | Panicked

  /** `hyper::StatusCode`: three digits. */
  type StatusCode = s: int | 100 <= s <= 999 witness 200

  /** `StatusCode::is_success`: the 2xx class. */
  predicate IsSuccess(status: StatusCode)
    ensures IsSuccess(status) <==> status / 100 == 2
  {
    200 <= status <= 299
  }

  /**
   * The dispatch on a fully read body: not UTF-8 is `EmptyResponse`; then
   * 2xx decodes the text with `decode`, 401 is `Unauthorized`, 400 and 404
   * parse the error list (a body that does not parse panics in the
   * `unwrap`), and every other status is `DatabaseError` with the text.
   */
  function Classify<T>(status: StatusCode, body: seq<byte>, decode: string -> T,
                       parseErrors: string -> Option<FaunaErrors>): (r: Outcome<T>)
    ensures Utf8.Decode(body).None? ==> r == Resolved(Err(EmptyResponse))
    ensures Utf8.Decode(body).Some? && IsSuccess(status) ==> r == Resolved(Ok(decode(Utf8.Decode(body).value)))
    ensures Utf8.Decode(body).Some? && status == 401 ==> r == Resolved(Err(Unauthorized))
    ensures Utf8.Decode(body).Some? && status == 400 ==>
      r == match parseErrors(Utf8.Decode(body).value)
           case Some(errors) => Resolved(Err(BadRequest(errors)))
           case None => Panicked
    ensures Utf8.Decode(body).Some? && status == 404 ==>
      r == match parseErrors(Utf8.Decode(body).value)
           case Some(errors) => Resolved(Err(NotFound(errors)))
           case None => Panicked
    ensures Utf8.Decode(body).Some? && !IsSuccess(status) && status !in {400, 401, 404} ==>
      r == Resolved(Err(DatabaseError(Utf8.Decode(body).value)))
  {
    match Utf8.Decode(body)
    case None => Resolved(Err(EmptyResponse))
    case Some(text) =>
      if IsSuccess(status) then Resolved(Ok(decode(text)))
      else if status == 401 then Resolved(Err(Unauthorized))
      else if status == 400 then
        match parseErrors(text)
        case Some(errors) => Resolved(Err(BadRequest(errors)))
        case None => Panicked
      else if status == 404 then
        match parseErrors(text)
        case Some(errors) => Resolved(Err(NotFound(errors)))
        case None => Panicked
      else Resolved(Err(DatabaseError(text)))
  }

  /**
   * Read backwards, each outcome names its cause: success only for 2xx,
   * `EmptyResponse` only for a body that is not UTF-8, and a
   * `DatabaseError` carries the very bytes the server sent.
   */
  lemma ClassifyCauses<T>(status: StatusCode, body: seq<byte>, decode: string -> T,
                          parseErrors: string -> Option<FaunaErrors>)
    ensures var r := Classify(status, body, decode, parseErrors);
      && (r.Resolved? && r.result.Ok? <==> IsSuccess(status) && Utf8.Decode(body).Some?)
      && (r == Resolved(Err(EmptyResponse)) <==> Utf8.Decode(body).None?)
      && (r == Resolved(Err(Unauthorized)) <==> Utf8.Decode(body).Some? && status == 401)
      && (r.Resolved? && r.result.Err? && r.result.error.BadRequest? ==> status == 400)
      && (r.Resolved? && r.result.Err? && r.result.error.NotFound? ==> status == 404)
      && (r.Panicked? ==> status == 400 || status == 404)
      && (r.Resolved? && r.result.Err? && r.result.error.DatabaseError? ==>
            !IsSuccess(status) && status !in {400, 401, 404} && Utf8.Encode(r.result.error.body) == body)
  {
    if Utf8.Decode(body).Some? {
      Utf8.EncodeDecode(body, Utf8.Decode(body).value);
    }
  }

  /** The decode function is applied only to a 2xx UTF-8 body: elsewhere any other gives the same outcome. */
  lemma DecodeOnlyOnSuccess<T>(status: StatusCode, body: seq<byte>, f: string -> T, g: string -> T,
                               parseErrors: string -> Option<FaunaErrors>)
    requires !(IsSuccess(status) && Utf8.Decode(body).Some?)
    ensures Classify(status, body, f, parseErrors) == Classify(status, body, g, parseErrors)
  {
  }

  /** The error list is parsed only for 400 and 404. */
  lemma ParseOnlyOnClientErrors<T>(status: StatusCode, body: seq<byte>, decode: string -> T,
                                   p: string -> Option<FaunaErrors>, q: string -> Option<FaunaErrors>)
    requires status != 400 && status != 404
    ensures Classify(status, body, decode, p) == Classify(status, body, decode, q)
  {
  }

  /** What the transport delivers: a failure to send, a failure reading the body, or a status and the whole body. */
  datatype Exchange =
    | SendFailed(cause: string)
    | ReadFailed(cause: string)
    | Delivered(status: StatusCode, body: seq<byte>)

  /** The `requesting` future: transport failures are `ConnectionError`, a delivered body is classified. */
  function Respond<T>(exchange: Exchange, decode: string -> T, parseErrors: string -> Option<FaunaErrors>): (r: Outcome<T>)
    ensures exchange.SendFailed? || exchange.ReadFailed? ==> r == Resolved(Err(ConnectionError(exchange.cause)))
    ensures exchange.Delivered? ==> r == Classify(exchange.status, exchange.body, decode, parseErrors)
    ensures r.Resolved? && r.result.Err? ==> r.result.error != TimeoutError && r.result.error != Other
  {
    match exchange
    case SendFailed(cause) => Resolved(Err(ConnectionError(cause)))
    case ReadFailed(cause) => Resolved(Err(ConnectionError(cause)))
    case Delivered(status, body) => Classify(status, body, decode, parseErrors)
  }

  // ------------------------------------------------------------ Timeout

  /** The error of `tokio_timer::Timeout`: the inner future's error, an elapsed deadline, or a failed timer. */
  datatype TimeoutFailure = Inner(error: Error) | DeadlineElapsed | TimerFailure

  /** How the race against the deadline ended. */
  datatype Deadline = InTime | Elapsed | TimerFailed

  /**
   * The mapping as written at src/client.rs:150-159: `is_timer()` holds for
   * a failed timer only, so an elapsed deadline reaches `into_inner()`,
   * finds no inner error, and becomes `Other`.
   */
  function MapTimeoutErrorAsWritten(e: TimeoutFailure): (r: Error)
    ensures e.Inner? ==> r == e.error
    ensures e.TimerFailure? ==> r == TimeoutError
    ensures e.DeadlineElapsed? ==> r == Other
  {
    if e.TimerFailure? then TimeoutError
    else match e
      case Inner(error) => error
      case _ => Other
  }

  /** The discrepancy: a request that runs out of time is reported as `Other`. */
  lemma ElapsedDeadlineIsOtherAsWritten()
    ensures MapTimeoutErrorAsWritten(DeadlineElapsed) == Other
    ensures MapTimeoutErrorAsWritten(DeadlineElapsed) != MapTimeoutError(DeadlineElapsed)
  {
  }

  /**
   * The intended mapping: an elapsed deadline is `TimeoutError`, an inner
   * error passes through unchanged, and a failed timer, which carries no
   * inner error, is `Other`.
   */
  function MapTimeoutError(e: TimeoutFailure): (r: Error)
    ensures e.DeadlineElapsed? ==> r == TimeoutError
    ensures e.Inner? ==> r == e.error
    ensures e.TimerFailure? ==> r == Other
  {
    match e
    case Inner(error) => error
    case DeadlineElapsed => TimeoutError
    case TimerFailure => Other
  }

  /**
   * `request`: the transport's outcome raced against the deadline. In time,
   * the outcome is the inner one unchanged; otherwise the deadline decides
   * and the transport's outcome is discarded.
   */
  function Request<T>(exchange: Exchange, deadline: Deadline, decode: string -> T,
                      parseErrors: string -> Option<FaunaErrors>): (r: Outcome<T>)
    ensures deadline == InTime ==> r == Respond(exchange, decode, parseErrors)
    ensures deadline == Elapsed ==> r == Resolved(Err(TimeoutError))
    ensures deadline == TimerFailed ==> r == Resolved(Err(Other))
    ensures r == Resolved(Err(TimeoutError)) <==> deadline == Elapsed
    ensures r.Resolved? && r.result.Ok? ==>
      && deadline == InTime && exchange.Delivered? && IsSuccess(exchange.status)
      && Utf8.Decode(exchange.body).Some?
      && r.result.value == decode(Utf8.Decode(exchange.body).value)
  {
    match deadline
    case Elapsed => Resolved(Err(MapTimeoutError(DeadlineElapsed)))
    case TimerFailed => Resolved(Err(MapTimeoutError(TimerFailure)))
    case InTime =>
      match Respond(exchange, decode, parseErrors)
      case Panicked => Panicked
      case Resolved(Ok(v)) => Resolved(Ok(v))
      case Resolved(Err(e)) => Resolved(Err(MapTimeoutError(Inner(e))))
  }
}
