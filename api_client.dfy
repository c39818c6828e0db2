/** OpenWeatherApiClient: the key and city guards, the classification of an
    HTTP reply into a payload or an SDK error, the conversion of a decoded
    reply into the SDK's output format, and the rule that wraps every
    failure that is not an SDK error into a NetworkException.

    The HTTP exchange itself (WebClient, Reactor, Jackson) is not modelled:
    an exchange is an abstract outcome `Exchange` that a `network` function
    returns for a request, carrying the reply's status, its raw body, the
    message `extractErrorMessage` would read from that body, and what the
    body decodes to. */
module ApiClient {
  import opened Common

  /** BASE_URL. */
  const DefaultBaseUrl := "https://api.openweathermap.org/data/3.0"

  /** The configuration an OpenWeatherApiClient holds; both fields are final. */
  datatype Config = Config(apiKey: string, baseUrl: string)

  /** GET <baseUrl>/weather?q=<city>&appid=<key>&units=imperial */
  datatype Request = Request(baseUrl: string, path: string, city: string, appid: string, units: string)

  function RequestFor(c: Config, city: string): (q: Request)
    ensures q.city == city && q.appid == c.apiKey && q.baseUrl == c.baseUrl
  {
    Request(c.baseUrl, "/weather", city, c.apiKey, "imperial")
  }

  /** The constructor's guard (both constructors): a blank key is refused
      with InvalidApiKeyException. */
  function NewConfig(apiKey: string, baseUrl: string): (r: Result<Config>)
    ensures r.Ok? <==> !IsBlank(apiKey)
    ensures r.Ok? ==> r.value == Config(apiKey, baseUrl)
    ensures r.Fail? ==> r.error == Error(InvalidApiKey, BlankKeyMessage)
  {
    if IsBlank(apiKey) then Fail(Error(InvalidApiKey, BlankKeyMessage))
    else Ok(Config(apiKey, baseUrl))
  }

  // ---------------------------------------------------------------------
  // The decoded reply (WeatherResponse) and its conversion

  /** One element of `weather` (Weather): each field may be absent (null). */
  datatype Condition = Condition(main: Option<string>, description: Option<string>)

  /** A decoded WeatherResponse. Every field may be absent (null), and so may
      each element of `weather`; numbers are carried as their JSON text. */
  datatype Report = Report(
    weather: Option<seq<Option<Condition>>>,
    temp: Option<Option<string>>,        // temperature, then temperature.temp
    feelsLike: Option<string>,           // temperature.feels_like
    visibility: Option<string>,
    speed: Option<Option<string>>,       // wind, then wind.speed
    datetime: Option<string>,
    sunrise: Option<Option<string>>,     // sun, then sun.sunrise
    sunset: Option<string>,              // sun.sunset
    timezone: Option<string>,
    name: Option<string>)

  /** The output format: every value convertToRequiredFormat puts in its maps. */
  datatype Summary = Summary(
    main: string, description: string, temp: string, feelsLike: string,
    visibility: string, speed: string, datetime: string, sunrise: string,
    sunset: string, timezone: string, name: string)

  /** The WeatherSdkException every conversion failure becomes. */
  const ProcessingError := Error(SdkError, "Error processing weather data")

  /** What a report needs for the conversion to succeed: a non-empty
      `weather` whose first element and its two fields are present, and every
      other value present (Map.of refuses null values, the getters of an
      absent object throw). */
  predicate Complete(rep: Report) {
    && rep.weather.Some? && |rep.weather.value| > 0
    && rep.weather.value[0].Some?
    && rep.weather.value[0].value.main.Some? && rep.weather.value[0].value.description.Some?
    && rep.temp.Some? && rep.temp.value.Some? && rep.feelsLike.Some?
    && rep.visibility.Some?
    && rep.speed.Some? && rep.speed.value.Some?
    && rep.datetime.Some?
    && rep.sunrise.Some? && rep.sunrise.value.Some? && rep.sunset.Some?
    && rep.timezone.Some? && rep.name.Some?
  }

  /** convertToRequiredFormat: reads the first element of `weather` and the
      other fields; any failure becomes ProcessingError. */
  function Convert(rep: Report): (r: Result<Summary>)
    ensures r.Ok? <==> Complete(rep)
    ensures r.Fail? ==> r.error == ProcessingError
    ensures r.Ok? ==> var first := rep.weather.value[0].value;
      && r.value.main == first.main.value
      && r.value.description == first.description.value
      && r.value.temp == rep.temp.value.value && r.value.feelsLike == rep.feelsLike.value
      && r.value.visibility == rep.visibility.value
      && r.value.speed == rep.speed.value.value
      && r.value.datetime == rep.datetime.value
      && r.value.sunrise == rep.sunrise.value.value && r.value.sunset == rep.sunset.value
      && r.value.timezone == rep.timezone.value
      && r.value.name == rep.name.value
  {
    match rep.weather
    case None => Fail(ProcessingError)
    case Some(ws) =>
      if |ws| == 0 || ws[0].None? then Fail(ProcessingError)
      else
        var w := ws[0].value;
        if w.main.None? || w.description.None? then Fail(ProcessingError)
        else if rep.temp.None? || rep.temp.value.None? || rep.feelsLike.None? then Fail(ProcessingError)
        else if rep.visibility.None? then Fail(ProcessingError)
        else if rep.speed.None? || rep.speed.value.None? then Fail(ProcessingError)
        else if rep.datetime.None? then Fail(ProcessingError)
        else if rep.sunrise.None? || rep.sunrise.value.None? || rep.sunset.None? then Fail(ProcessingError)
        else if rep.timezone.None? || rep.name.None? then Fail(ProcessingError)
        else Ok(Summary(w.main.value, w.description.value, rep.temp.value.value, rep.feelsLike.value,
                        rep.visibility.value, rep.speed.value.value, rep.datetime.value,
                        rep.sunrise.value.value, rep.sunset.value, rep.timezone.value, rep.name.value))
  }

  /** JSON string escaping of quote, backslash and control characters. */
  function Escape(s: string): string
    decreases |s|
  {
    if s == [] then []
    else
      var c := s[0];
      (if c == '"' then "\\\""
       else if c == '\\' then "\\\\"
       else if c < ' ' then "\\u00" + [HexDigit(c as int / 16), HexDigit(c as int % 16)]
       else [c]) + Escape(s[1..])
  }

  function HexDigit(d: int): char
    requires 0 <= d < 16
  {
    if d < 10 then '0' + d as char else 'a' + (d - 10) as char
  }

  function Quote(s: string): string {
    "\"" + Escape(s) + "\""
  }

  /** The serialized summary (one fixed key order). */
  function Render(s: Summary): (r: string)
    ensures |r| > 0 && r[0] == '{' && r[|r| - 1] == '}'
    ensures !IsBlank(r)
  {
    var fields := "\"weather\":{\"main\":" + Quote(s.main) + ",\"description\":" + Quote(s.description) + "}"
      + ",\"temperature\":{\"temp\":" + s.temp + ",\"feels_like\":" + s.feelsLike + "}"
      + ",\"visibility\":" + s.visibility
      + ",\"wind\":{\"speed\":" + s.speed + "}"
      + ",\"datetime\":" + s.datetime
      + ",\"sun\":{\"sunrise\":" + s.sunrise + ",\"sunset\":" + s.sunset + "}"
      + ",\"timezone\":" + s.timezone
      + ",\"name\":" + Quote(s.name);
    var r := "{" + fields + "}";
    assert r[0] == '{';
    r
  }

  // ---------------------------------------------------------------------
  // The reply pipeline

  /** What the body of a successful reply decodes to: a report, or the
      decoder's failure with its message. */
  datatype Decoding = Undecodable(reason: string) | Decoded(report: Report)

  /** An HTTP status code of a final response: 100 to 599 (section 15 of
      RFC 9110). */
  type Status = s: int | 100 <= s <= 599 witness 200

  /** The outcome of one HTTP exchange. `errorMessage` is what
      extractErrorMessage reads from `body` (the body's "message" value, or
      its "Unknown error" fallbacks). A failure of the exchange itself (a
      timeout, a refused connection) happens inside the reactive chain; a
      failure of block() (an interrupt) happens outside it. */
  datatype Exchange =
    | Reply(status: Status, body: string, errorMessage: string, decoding: Decoding)
    | ChainFailure(reason: string)
    | BlockFailure(reason: string)

  /** HttpStatusCode.is4xxClientError / is5xxServerError (section 15 of
      RFC 9110: 4xx client error, 5xx server error). */
  predicate Is4xx(status: int) { 400 <= status <= 499 }
  predicate Is5xx(status: int) { 500 <= status <= 599 }

  /** handleErrorResponse: the exception a client error becomes. */
  function ClientError(status: int, message: string): (e: Error)
    ensures e.kind == InvalidApiKey <==> status == 401
    ensures e.kind == ApiKeyBlocked <==> status == 403
    ensures e.kind == CityNotFound <==> status == 404
    ensures e.kind == SdkError <==> status !in {401, 403, 404}
  {
    if status == 401 then Error(InvalidApiKey, "Invalid API Key: " + message)
    else if status == 403 then Error(ApiKeyBlocked, "API Key blocked: " + message)
    else if status == 404 then Error(CityNotFound, "City not found: " + message)
    else Error(SdkError, "API error: " + message)
  }

  /** An exception raised inside the pipeline: one of the SDK's, or a
      foreign one with its message. */
  datatype Raised = Sdk(error: Error) | Foreign(message: string)

  /** The signal the reactive chain ends with: a payload, no value, or an
      exception. */
  datatype Signal = Value(payload: string) | NoValue | Raise(raised: Raised)

  /** retrieve() with the two onStatus handlers, then bodyToMono and map.
      An error status with an empty body makes its handler's Mono empty, so
      the reply is processed as a normal one. */
  function Pipeline(status: Status, body: string, errorMessage: string, decoding: Decoding): Signal {
    if Is4xx(status) && body != "" then Raise(Sdk(ClientError(status, errorMessage)))
    else if Is5xx(status) && body != "" then
      Raise(Sdk(Error(UnexpectedApi, "OpenWeather API server error: " + body)))
    else if body == "" then NoValue
    else match decoding
      case Undecodable(reason) => Raise(Foreign(reason))
      case Decoded(rep) =>
        match Convert(rep)
        case Ok(s) => Value(Render(s))
        case Fail(e) => Raise(Sdk(e))
  }

  /** onErrorMap: an SDK exception passes unchanged, any other becomes a
      NetworkException. */
  function MapError(s: Signal): (r: Signal)
    ensures r.Raise? ==> r.raised.Sdk?
    ensures s.Raise? && s.raised.Sdk? ==> r == s
    ensures !s.Raise? ==> r == s
    ensures s.Raise? && s.raised.Foreign? ==>
      r == Raise(Sdk(Error(NetworkFailure, "Network error: " + s.raised.message)))
  {
    match s
    case Raise(Foreign(m)) => Raise(Sdk(Error(NetworkFailure, "Network error: " + m)))
    case _ => s
  }

  /** The catch clauses around block(): an SDK exception is rethrown, any
      other becomes a NetworkException. */
  function Rethrow(x: Raised): (e: Error)
    ensures x.Sdk? ==> e == x.error
    ensures x.Foreign? ==> e == Error(NetworkFailure, "Unexpected network error: " + x.message)
  {
    match x
    case Sdk(e) => e
    case Foreign(m) => Error(NetworkFailure, "Unexpected network error: " + m)
  }

  /** What block() returns for a null result. */
  const NullPayload := ""

  /** fetchWeather for one exchange: the city guard, then the pipeline, then
      block(). */
  function Fetch(city: string, x: Exchange): (r: Result<string>)
    ensures IsBlank(city) ==> r == Fail(InvalidCityError)
  {
    if IsBlank(city) then Fail(InvalidCityError)
    else match x
      case ChainFailure(reason) => Fail(Error(NetworkFailure, "Network error: " + reason))
      case BlockFailure(reason) => Fail(Rethrow(Foreign(reason)))
      case Reply(status, body, message, decoding) =>
        match MapError(Pipeline(status, body, message, decoding))
        case Value(p) => Ok(p)
        case NoValue => Ok(NullPayload)
        case Raise(e) => Fail(Rethrow(e))
  }

  // ---------------------------------------------------------------------
  // Properties of the pipeline

  /** A client-error reply with a body fails with the exception its status
      selects, carrying the extracted message. */
  lemma ClientErrorReply(city: string, status: Status, body: string, message: string, d: Decoding)
    requires !IsBlank(city) && Is4xx(status) && body != ""
    ensures var r := Fetch(city, Reply(status, body, message, d));
      && r.Fail?
      && (r.error.kind == InvalidApiKey <==> status == 401)
      && (r.error.kind == ApiKeyBlocked <==> status == 403)
      && (r.error.kind == CityNotFound <==> status == 404)
      && (r.error.kind == SdkError <==> status !in {401, 403, 404})
      && r.error == ClientError(status, message)
  {
  }

  /** A server-error reply with a body fails with UnexpectedApiException,
      carrying the raw body. */
  lemma ServerErrorReply(city: string, status: Status, body: string, message: string, d: Decoding)
    requires !IsBlank(city) && Is5xx(status) && body != ""
    ensures Fetch(city, Reply(status, body, message, d))
         == Fail(Error(UnexpectedApi, "OpenWeather API server error: " + body))
  {
  }

  /** Every failure of fetchWeather is an SDK exception of the client's own
      kinds: never a shutdown error, and a failure of the exchange itself is
      always a NetworkException. */
  lemma FetchFailureKinds(city: string, x: Exchange)
    ensures var r := Fetch(city, x);
      && (r.Fail? ==> r.error.kind in {InvalidCity, InvalidApiKey, ApiKeyBlocked, CityNotFound,
                                       SdkError, UnexpectedApi, NetworkFailure})
      && (!IsBlank(city) && (x.ChainFailure? || x.BlockFailure?) ==> r.Fail? && r.error.kind == NetworkFailure)
  {
    var r := Fetch(city, x);
    if !IsBlank(city) && x.Reply? {
      var s := Pipeline(x.status, x.body, x.errorMessage, x.decoding);
      if s.Raise? && s.raised.Sdk? {
        var k := s.raised.error.kind;
        assert k in {ApiKeyBlocked, InvalidApiKey, CityNotFound, SdkError, UnexpectedApi};
      }
    }
  }

  /** A successful fetch yields either the serialized summary of a complete
      decoded report, or (for an empty body) the null payload; the payload is
      blank exactly in the second case, so the cache refuses exactly that
      one. */
  lemma FetchOkPayload(city: string, x: Exchange)
    requires Fetch(city, x).Ok?
    ensures x.Reply?
    ensures var p := Fetch(city, x).value;
      && (IsBlank(p) <==> x.body == "")
      && (x.body == "" ==> p == NullPayload)
      && (x.body != "" ==> x.decoding.Decoded? && Complete(x.decoding.report)
                           && p == Render(Convert(x.decoding.report).value))
  {
  }

  /** A decoded but incomplete report fails with exactly ProcessingError. */
  lemma IncompleteReport(city: string, status: Status, body: string, message: string, rep: Report)
    requires !IsBlank(city) && !Is4xx(status) && !Is5xx(status) && body != "" && !Complete(rep)
    ensures Fetch(city, Reply(status, body, message, Decoded(rep))) == Fail(ProcessingError)
  {
  }

  /** A body the decoder refuses fails with NetworkException. */
  lemma UndecodableReply(city: string, status: Status, body: string, message: string, reason: string)
    requires !IsBlank(city) && !Is4xx(status) && !Is5xx(status) && body != ""
    ensures Fetch(city, Reply(status, body, message, Undecodable(reason)))
         == Fail(Error(NetworkFailure, "Network error: " + reason))
  {
  }

  /** An OpenWeatherApiClient. Its configuration is final; `network` stands
      for the WebClient and the server behind it, answering a request at a
      given time; the ghost `requests` records every request sent. */
  class OpenWeatherApiClient {
    const config: Config
    const network: (Request, int) -> Exchange
    ghost var requests: seq<Request>

    constructor (config: Config, network: (Request, int) -> Exchange)
      requires !IsBlank(config.apiKey)
      ensures this.config == config && this.network == network && requests == []
    {
      this.config := config;
      this.network := network;
      requests := [];
    }

    /** Both Java constructors: the key guard, then the client. */
    static method Create(apiKey: string, baseUrl: string, network: (Request, int) -> Exchange)
      returns (r: Result<OpenWeatherApiClient>)
      ensures r.Fail? <==> IsBlank(apiKey)
      ensures r.Fail? ==> r.error == NewConfig(apiKey, baseUrl).error
      ensures r.Ok? ==> (fresh(r.value) && r.value.config == Config(apiKey, baseUrl)
                         && r.value.network == network && r.value.requests == [])
    {
      var c := NewConfig(apiKey, baseUrl);
      if c.Fail? {
        return Fail(c.error);
      }
      var client := new OpenWeatherApiClient(c.value, network);
      return Ok(client);
    }

    /** The result fetchWeather gives for `city` at time `now`. */
    function Outcome(city: string, now: int): (r: Result<string>)
      ensures IsBlank(city) ==> r == Fail(InvalidCityError)
    {
      Fetch(city, network(RequestFor(config, city), now))
    }

    /** fetchWeather: a blank city is refused before any request is sent;
        otherwise exactly one request is sent. */
    method FetchWeather(city: string, now: int) returns (r: Result<string>)
      modifies this
      ensures r == Outcome(city, now)
      ensures requests == old(requests) + (if IsBlank(city) then [] else [RequestFor(config, city)])
    {
      if IsBlank(city) {
        return Fail(InvalidCityError);
      }
      requests := requests + [RequestFor(config, city)];
      var x := network(RequestFor(config, city), now);
      r := Fetch(city, x);
    }
  }
}
