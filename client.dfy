/** NeutrinoAPIClient and its shared request engine execRequest: build the
    request, run it under the call's timeouts, classify the response, and
    turn every caught exception into an error code. Everything execRequest
    delegates to a library or to the operating system is a field of
    `Environment`, a total function chosen by the caller of the model. */
module NeutrinoApiClient {
  import opened Wrappers
  import opened Exceptions
  import opened Json
  import opened Http
  import opened Responses
  import opened FailureMapping
  import FailureMappingProperties

  const MulticloudEndpoint: string := "https://neutrinoapi.net/"
  const AwsEndpoint: string := "https://aws.neutrinoapi.net/"
  const GcpEndpoint: string := "https://gcp.neutrinoapi.net/"
  const BackupEndpoint: string := "https://neutrinoapi.com/"
  const EuGeofenceEndpoint: string := "https://eu.neutrinoapi.net/"
  const AuGeofenceEndpoint: string := "https://aus.neutrinoapi.net/"
  const UsGeofenceEndpoint: string := "https://usa.neutrinoapi.net/"

  const ConnectTimeoutMillis: nat := 10 * 1000

  /** The one static OkHttpClient: only its connect timeout is configured. */
  const SharedHttpClient: ClientSettings := ClientSettings(ConnectTimeoutMillis, None, None)

  const JsonMediaType: string := "application/json"

  datatype NeutrinoAPIClient = NeutrinoAPIClient(userID: string, apiKey: string, baseURL: string)

  /** The two-argument constructor: the multicloud endpoint is the base URL. */
  function DefaultClient(userID: string, apiKey: string): (c: NeutrinoAPIClient)
    ensures c.baseURL == MulticloudEndpoint
    ensures c.userID == userID && c.apiKey == apiKey
  {
    NeutrinoAPIClient(userID, apiKey, MulticloudEndpoint)
  }

  /** The library and system calls execRequest makes. */
  datatype Environment = Environment(
    urlParses: string -> bool,                          // HttpUrl.parse(url) != null
    send: (Request, ClientSettings) -> Exchange,        // Call.execute, including reading the body
    decode: (string, seq<byte>) -> string,              // ResponseBody.string(): charset from the content type or a BOM
    parseJson: string -> Option<JsonValue>,             // JsonParser.parseString; None: JsonSyntaxException
    writeFile: (string, seq<byte>) -> Option<IoFailure>) // FileOutputStream + transferTo; None: every byte written

  /** OkHttp refuses (with an exception thrown before the try statement) a
      timeout that is negative or longer than Integer.MAX_VALUE milliseconds. */
  predicate ValidTimeout(seconds: int)
  {
    0 <= seconds && seconds * 1000 <= 0x7fff_ffff
  }

  /** OkHttp refuses a header value holding a character other than a tab
      or printable ASCII; the exception is not one execRequest catches. */
  predicate ValidHeaderValue(s: string)
  {
    forall i :: 0 <= i < |s| ==> s[i] == '\t' || ' ' <= s[i] <= '~'
  }

  predicate IsJsonContent(contentType: string)
  {
    Contains(contentType, JsonMediaType)
  }

  /** The client execRequest derives for one call from the shared one. */
  function PerCallSettings(timeoutSeconds: nat): (s: ClientSettings)
    ensures s.connectTimeoutMillis == SharedHttpClient.connectTimeoutMillis
    ensures s.readTimeoutSeconds == s.writeTimeoutSeconds == Some(timeoutSeconds)
  {
    SharedHttpClient.(readTimeoutSeconds := Some(timeoutSeconds), writeTimeoutSeconds := Some(timeoutSeconds))
  }

  function CredentialHeaders(client: NeutrinoAPIClient): map<string, string>
  {
    map["User-ID" := client.userID, "API-Key" := client.apiKey]
  }

  /** The request built for a URL that parsed. */
  function BuildRequest(client: NeutrinoAPIClient, httpMethod: string, url: string, params: Params): Request
  {
    if httpMethod == "GET" then Request(Get, url, params, None, CredentialHeaders(client))
    else Request(Post, url, [], Some(params), CredentialHeaders(client))
  }

  /** What execRequest hands to OkHttp: the request and the client it runs on. */
  datatype Dispatch = Dispatch(request: Request, settings: ClientSettings)

  /** Request construction: None when base URL and endpoint do not form a
      URL, in which case nothing is sent. */
  function Prepare(client: NeutrinoAPIClient, httpMethod: string, endpoint: string, params: Params,
                   timeoutSeconds: nat, urlParses: string -> bool): Option<Dispatch>
  {
    var url := client.baseURL + endpoint;
    if urlParses(url) then Some(Dispatch(BuildRequest(client, httpMethod, url, params), PerCallSettings(timeoutSeconds)))
    else None
  }

  /** The members of an error envelope execRequest reads can be read
      without an exception that escapes it. */
  predicate EnvelopeReadable(m: map<string, JsonValue>)
  {
    ("api-error" in m && "api-error-msg" in m) ==>
      AsInt(m["api-error"]).Some? && AsString(m["api-error-msg"]).Some? &&
      (AsInt(m["api-error"]).value == 1 ==>
         "api-parameter-name" in m && AsString(m["api-parameter-name"]).Some? &&
         "api-parameter-type" in m && AsString(m["api-parameter-type"]).Some?)
  }

  /** The response raises no exception that execRequest leaves uncaught:
      JSON bodies it reads are objects, and an error envelope's members
      have the kinds its accessors need. */
  predicate ReplyHandled(raw: RawResponse, env: Environment)
  {
    IsJsonContent(raw.contentType) ==>
      match env.parseJson(env.decode(raw.contentType, raw.body))
      case None => true
      case Some(json) => json.JObject? && (!IsSuccessful(raw.status) ==> EnvelopeReadable(json.members))
  }

  /** No exception escapes execRequest's catch clauses. The credential
      headers are only set, and so only checked, once the URL has parsed. */
  predicate CallHandled(client: NeutrinoAPIClient, httpMethod: string, endpoint: string, params: Params,
                        timeoutSeconds: nat, env: Environment)
  {
    match Prepare(client, httpMethod, endpoint, params, timeoutSeconds, env.urlParses)
    case None => true
    case Some(dispatch) =>
      ValidHeaderValue(client.userID) && ValidHeaderValue(client.apiKey) &&
      match env.send(dispatch.request, dispatch.settings)
      case Raised(_) => true
      case Received(raw) => ReplyHandled(raw, env)
  }

  /** How the body of the try statement ends: with a response, or by
      throwing an exception to the catch clauses. */
  datatype Attempt = Completed(response: APIResponse) | Threw(exception: ExceptionClass)

  /** The message of an error envelope; code 1 (a bad parameter) names the
      parameter and its expected type. */
  function EnvelopeMessage(m: map<string, JsonValue>): string
    requires "api-error" in m && "api-error-msg" in m && EnvelopeReadable(m)
  {
    var message := AsString(m["api-error-msg"]).value;
    if AsInt(m["api-error"]).value == 1 then
      message + ", Name: " + AsString(m["api-parameter-name"]).value
              + ", Type: " + AsString(m["api-parameter-type"]).value
    else message
  }

  /** The response classification inside the try-with-resources block. */
  function Classify(raw: RawResponse, outputFilePath: Option<string>, env: Environment): (a: Attempt)
    requires ReplyHandled(raw, env)
    ensures a.Threw? ==> IsA(a.exception, IOException) || a.exception == JsonSyntaxException
  {
    var status, contentType := raw.status, raw.contentType;
    if IsSuccessful(status) then
      if IsJsonContent(contentType) then
        match env.parseJson(env.decode(raw.contentType, raw.body))
        case None => Threw(JsonSyntaxException)
        case Some(json) => Completed(JsonData(status, contentType, json.members))
      else if outputFilePath.Some? then
        match env.writeFile(outputFilePath.value, raw.body)
        case Some(failure) => Threw(failure)
        case None =>
          // the file now holds exactly the body's bytes
          if |raw.body| > 0 then Completed(FileData(status, contentType, outputFilePath.value))
          else Completed(NoDataResponse)
      else
        Completed(Failure(Some(status), Some(contentType), ApiGatewayError, Some(env.decode(raw.contentType, raw.body))))
    else
      var rawResponse := env.decode(raw.contentType, raw.body);
      if IsJsonContent(contentType) then
        match env.parseJson(rawResponse)
        case None => Threw(JsonSyntaxException)
        case Some(json) =>
          var m := json.members;
          if "api-error" in m && "api-error-msg" in m then
            Completed(Failure(Some(status), Some(contentType), Remote(AsInt(m["api-error"]).value), Some(EnvelopeMessage(m))))
          else
            Completed(NoDataResponse)
      else
        Completed(Failure(Some(status), Some(contentType), ApiGatewayError, Some(rawResponse)))
  }

  /** execRequest as a function of its arguments and the environment. */
  function Exec(client: NeutrinoAPIClient, httpMethod: string, endpoint: string, params: Params,
                outputFilePath: Option<string>, timeoutSeconds: nat, env: Environment): (r: APIResponse)
    requires ValidTimeout(timeoutSeconds)
    requires CallHandled(client, httpMethod, endpoint, params, timeoutSeconds, env)
    ensures r.JsonData? ==> IsSuccessful(r.status) && IsJsonContent(r.contentType)
    ensures r.FileData? ==> IsSuccessful(r.status) && !IsJsonContent(r.contentType) && outputFilePath == Some(r.path)
    ensures r.Caught? ==> HandlerCode(r.cause) == Some(r.code)
  {
    match Prepare(client, httpMethod, endpoint, params, timeoutSeconds, env.urlParses)
    case None =>
      Failure(None, None, UrlParsingError, None)
    case Some(dispatch) =>
      var attempt :=
        match env.send(dispatch.request, dispatch.settings)
        case Raised(failure) => Threw(failure)
        case Received(raw) => Classify(raw, outputFilePath, env);
      match attempt
      case Completed(response) => response
      case Threw(e) =>
        FailureMappingProperties.CaughtExactly(e);
        Caught(HandlerCode(e).value, e)
  }

  /** execRequest as the Java method runs it: one mutable `response`,
      initialised to the NO_DATA placeholder and reassigned branch by
      branch; the query parameters or form fields added one pair at a time
      as params.forEach does; a thrown exception recorded and then handed
      to the first matching catch clause. */
  method ExecRequest(client: NeutrinoAPIClient, httpMethod: string, endpoint: string, params: Params,
                     outputFilePath: Option<string>, timeoutSeconds: nat, env: Environment)
    returns (response: APIResponse)
    requires ValidTimeout(timeoutSeconds)
    requires CallHandled(client, httpMethod, endpoint, params, timeoutSeconds, env)
    ensures response == Exec(client, httpMethod, endpoint, params, outputFilePath, timeoutSeconds, env)
  {
    response := NoDataResponse;
    var settings := PerCallSettings(timeoutSeconds);
    var thrown: Option<ExceptionClass> := None;
    var url := client.baseURL + endpoint;
    if env.urlParses(url) {
      var headers := CredentialHeaders(client);
      var request: Request;
      if httpMethod == "GET" {
        var query: seq<Param> := [];
        var i := 0;
        while i < |params|
          invariant 0 <= i <= |params|
          invariant query == params[..i]
        {
          query := query + [params[i]];
          i := i + 1;
        }
        assert params[..|params|] == params;
        request := Request(Get, url, query, None, headers);
      } else {
        var form: seq<Param> := [];
        var i := 0;
        while i < |params|
          invariant 0 <= i <= |params|
          invariant form == params[..i]
        {
          form := form + [params[i]];
          i := i + 1;
        }
        assert params[..|params|] == params;
        request := Request(Post, url, [], Some(form), headers);
      }
      assert Prepare(client, httpMethod, endpoint, params, timeoutSeconds, env.urlParses) == Some(Dispatch(request, settings));
      match env.send(request, settings)
      case Raised(failure) =>
        thrown := Some(failure);
      case Received(raw) =>
        var contentType, statusCode := raw.contentType, raw.status;
        if IsSuccessful(statusCode) {
          if IsJsonContent(contentType) {
            var parsed := env.parseJson(env.decode(raw.contentType, raw.body));
            if parsed.None? {
              thrown := Some(JsonSyntaxException);
            } else {
              response := JsonData(statusCode, contentType, parsed.value.members);
            }
          } else if outputFilePath.Some? {
            var failure := env.writeFile(outputFilePath.value, raw.body);
            if failure.Some? {
              thrown := Some(failure.value);
            } else if |raw.body| > 0 {
              response := FileData(statusCode, contentType, outputFilePath.value);
            }
          } else {
            var rawResponse := env.decode(raw.contentType, raw.body);
            response := Failure(Some(statusCode), Some(contentType), ApiGatewayError, Some(rawResponse));
          }
        } else {
          var rawResponse := env.decode(raw.contentType, raw.body);
          if IsJsonContent(contentType) {
            var parsed := env.parseJson(rawResponse);
            if parsed.None? {
              thrown := Some(JsonSyntaxException);
            } else {
              var json := parsed.value.members;
              if "api-error" in json && "api-error-msg" in json {
                var errorCode := AsInt(json["api-error"]).value;
                var errorMessage := AsString(json["api-error-msg"]).value;
                if errorCode == 1 {
                  errorMessage := errorMessage + ", Name: " + AsString(json["api-parameter-name"]).value
                                               + ", Type: " + AsString(json["api-parameter-type"]).value;
                }
                response := Failure(Some(statusCode), Some(contentType), Remote(errorCode), Some(errorMessage));
              }
            }
          } else {
            response := Failure(Some(statusCode), Some(contentType), ApiGatewayError, Some(rawResponse));
          }
        }
    } else {
      response := Failure(None, None, UrlParsingError, None);
    }
    if thrown.Some? {
      var e := thrown.value;
      FailureMappingProperties.CaughtExactly(e);
      response := Caught(HandlerCode(e).value, e);
    }
  }
}
