/** What execRequest promises, stated over the model of client.dfy: the
    request it builds, the per-call client, and the decision table that maps
    a raw response, a transport failure or a parse failure to the returned
    APIResponse. */
module NeutrinoApiClientProperties {
  import opened Wrappers
  import opened Exceptions
  import opened Json
  import opened Http
  import opened Responses
  import opened FailureMapping
  import opened FailureMappingProperties
  import opened NeutrinoApiClient

  /** The arguments execRequest may be called with (see Exec). */
  predicate Callable(client: NeutrinoAPIClient, httpMethod: string, endpoint: string, params: Params,
                     timeoutSeconds: nat, env: Environment)
  {
    ValidTimeout(timeoutSeconds) && CallHandled(client, httpMethod, endpoint, params, timeoutSeconds, env)
  }

  /** The URL parsed, the request went out and `raw` came back. */
  predicate Answered(client: NeutrinoAPIClient, httpMethod: string, endpoint: string, params: Params,
                     timeoutSeconds: nat, env: Environment, raw: RawResponse)
  {
    var prepared := Prepare(client, httpMethod, endpoint, params, timeoutSeconds, env.urlParses);
    prepared.Some? && env.send(prepared.value.request, prepared.value.settings) == Received(raw)
  }

  // ---------------------------------------------------------------------
  // Request construction

  /** A pair list with distinct names, read back as a map, gives every
      pair's value under its name and has one key per pair: a Java Map
      survives the trip through addQueryParameter / FormBody.add. */
  lemma {:induction false} ParamsAsMap(ps: seq<Param>)
    requires DistinctNames(ps)
    ensures |AsMap(ps).Keys| == |ps|
    ensures forall p :: p in ps ==> AsMap(ps)[p.name] == p.value
  {
    if ps != [] {
      var init, last := ps[..|ps| - 1], ps[|ps| - 1];
      assert DistinctNames(init);
      ParamsAsMap(init);
      LastNameIsNew(ps);
      assert AsMap(ps) == AsMap(init)[last.name := last.value];
      assert AsMap(ps).Keys == AsMap(init).Keys + {last.name};
      forall p | p in ps ensures AsMap(ps)[p.name] == p.value {
        if p != last {
          var i :| 0 <= i < |ps| && ps[i] == p;
          assert i != |ps| - 1;
          assert init[i] == p;
        }
      }
    }
  }

  /** The last pair of a list with distinct names adds a new key. */
  lemma LastNameIsNew(ps: seq<Param>)
    requires DistinctNames(ps) && ps != []
    ensures ps[|ps| - 1].name !in AsMap(ps[..|ps| - 1])
  {
    var init, last := ps[..|ps| - 1], ps[|ps| - 1];
    forall p | p in init ensures p.name != last.name {
      var i :| 0 <= i < |init| && init[i] == p;
      assert ps[i] == p;
    }
  }

  /** The target is exactly base URL followed by endpoint; when that does
      not parse nothing is built, and when it does the request carries the
      User-ID and API-Key headers and runs on a client with the call's
      read and write timeouts and the shared 10-second connect timeout. */
  lemma PrepareTarget(client: NeutrinoAPIClient, httpMethod: string, endpoint: string, params: Params,
                      timeoutSeconds: nat, urlParses: string -> bool)
    ensures Prepare(client, httpMethod, endpoint, params, timeoutSeconds, urlParses).None?
            <==> !urlParses(client.baseURL + endpoint)
    ensures Prepare(client, httpMethod, endpoint, params, timeoutSeconds, urlParses).Some? ==>
              var d := Prepare(client, httpMethod, endpoint, params, timeoutSeconds, urlParses).value;
              d.request.url == client.baseURL + endpoint
              && d.request.headers.Keys == {"User-ID", "API-Key"}
              && d.request.headers["User-ID"] == client.userID
              && d.request.headers["API-Key"] == client.apiKey
              && d.settings.connectTimeoutMillis == 10000
              && d.settings.readTimeoutSeconds == Some(timeoutSeconds)
              && d.settings.writeTimeoutSeconds == Some(timeoutSeconds)
  {
  }

  /** GET: every parameter, empty values included, becomes one query
      parameter, and there is no body. */
  lemma GetRequestCarriesParamsInQuery(client: NeutrinoAPIClient, url: string, params: Params)
    ensures var r := BuildRequest(client, "GET", url, params);
            r.verb == Get && r.form.None?
            && |r.query| == |params| && AsMap(r.query) == AsMap(params)
            && (forall p :: p in params ==> p in r.query && AsMap(r.query)[p.name] == p.value)
  {
    ParamsAsMap(params);
  }

  /** Any other method string: a POST whose form body holds every
      parameter, with no query parameters added. */
  lemma OtherMethodsPostForm(client: NeutrinoAPIClient, httpMethod: string, url: string, params: Params)
    requires httpMethod != "GET"
    ensures var r := BuildRequest(client, httpMethod, url, params);
            r.verb == Post && r.query == [] && r.form.Some?
            && |r.form.value| == |params| && AsMap(r.form.value) == AsMap(params)
            && (forall p :: p in params ==> p in r.form.value && AsMap(r.form.value)[p.name] == p.value)
  {
    ParamsAsMap(params);
  }

  /** The shared client is a constant; each call gets its own copy with
      its own read and write timeouts, so calls cannot disturb each other. */
  lemma PerCallSettingsIndependent(t1: nat, t2: nat)
    ensures PerCallSettings(t1).connectTimeoutMillis == PerCallSettings(t2).connectTimeoutMillis == ConnectTimeoutMillis
    ensures PerCallSettings(t1) == PerCallSettings(t2) <==> t1 == t2
    ensures SharedHttpClient.readTimeoutSeconds.None? && SharedHttpClient.writeTimeoutSeconds.None?
  {
  }

  // ---------------------------------------------------------------------
  // URL parsing failure

  /** An unparsable URL gives URL_PARSING_ERROR with no status and no
      content type, and the result does not depend on the transport, the
      JSON parser or the file system: nothing was sent. URL_PARSING_ERROR
      arises in no other way. */
  lemma UrlParsingErrorExactly(client: NeutrinoAPIClient, httpMethod: string, endpoint: string, params: Params,
                               outputFilePath: Option<string>, timeoutSeconds: nat, env: Environment, other: Environment)
    requires Callable(client, httpMethod, endpoint, params, timeoutSeconds, env)
    requires Callable(client, httpMethod, endpoint, params, timeoutSeconds, other)
    requires other.urlParses == env.urlParses
    ensures var r := Exec(client, httpMethod, endpoint, params, outputFilePath, timeoutSeconds, env);
            (r.Failure? && r.code == UrlParsingError) <==> !env.urlParses(client.baseURL + endpoint)
    ensures !env.urlParses(client.baseURL + endpoint) ==>
              Exec(client, httpMethod, endpoint, params, outputFilePath, timeoutSeconds, env)
                == Failure(None, None, UrlParsingError, None)
                == Exec(client, httpMethod, endpoint, params, outputFilePath, timeoutSeconds, other)
  {
    var prepared := Prepare(client, httpMethod, endpoint, params, timeoutSeconds, env.urlParses);
    if prepared.Some? {
      var d := prepared.value;
      match env.send(d.request, d.settings)
      case Raised(e) =>
        CaughtExactly(e);
      case Received(raw) =>
    }
  }

  // ---------------------------------------------------------------------
  // Response classification

  /** A 2xx response whose content type contains application/json is
      parsed: the JSON object with the status and content type, whether or
      not an output path was given; malformed JSON is INVALID_JSON_RESPONSE. */
  lemma JsonSuccessWins(client: NeutrinoAPIClient, httpMethod: string, endpoint: string, params: Params,
                        outputFilePath: Option<string>, timeoutSeconds: nat, env: Environment, raw: RawResponse)
    requires Callable(client, httpMethod, endpoint, params, timeoutSeconds, env)
    requires Answered(client, httpMethod, endpoint, params, timeoutSeconds, env, raw)
    requires IsSuccessful(raw.status) && IsJsonContent(raw.contentType)
    ensures var r := Exec(client, httpMethod, endpoint, params, outputFilePath, timeoutSeconds, env);
            match env.parseJson(env.decode(raw.contentType, raw.body))
            case Some(json) => json.JObject? && r == JsonData(raw.status, raw.contentType, json.members)
            case None => r == Caught(InvalidJsonResponse, JsonSyntaxException)
  {
    HandlerCodes(JsonSyntaxException);
  }

  /** A 2xx non-JSON response with an output path is written to the file;
      the result names the file exactly when the file is not empty, and an
      empty download leaves the NO_DATA placeholder. */
  lemma DownloadNamesFileIffNonEmpty(client: NeutrinoAPIClient, httpMethod: string, endpoint: string, params: Params,
                                     path: string, timeoutSeconds: nat, env: Environment, raw: RawResponse)
    requires Callable(client, httpMethod, endpoint, params, timeoutSeconds, env)
    requires Answered(client, httpMethod, endpoint, params, timeoutSeconds, env, raw)
    requires IsSuccessful(raw.status) && !IsJsonContent(raw.contentType)
    requires env.writeFile(path, raw.body).None?
    ensures var r := Exec(client, httpMethod, endpoint, params, Some(path), timeoutSeconds, env);
            (r.FileData? <==> |raw.body| > 0)
            && (r.FileData? ==> r == FileData(raw.status, raw.contentType, path))
            && (!r.FileData? ==> r == NoDataResponse)
  {
  }

  /** A file that cannot be opened or written gives the catch clause's code
      for the I/O exception: FILE_IO_ERROR for FileNotFoundException and
      FileSystemException, NETWORK_IO_ERROR for a plain IOException. */
  lemma DownloadWriteFailure(client: NeutrinoAPIClient, httpMethod: string, endpoint: string, params: Params,
                             path: string, timeoutSeconds: nat, env: Environment, raw: RawResponse)
    requires Callable(client, httpMethod, endpoint, params, timeoutSeconds, env)
    requires Answered(client, httpMethod, endpoint, params, timeoutSeconds, env, raw)
    requires IsSuccessful(raw.status) && !IsJsonContent(raw.contentType)
    requires env.writeFile(path, raw.body).Some?
    ensures var e := env.writeFile(path, raw.body).value;
            var r := Exec(client, httpMethod, endpoint, params, Some(path), timeoutSeconds, env);
            r.Caught? && r.cause == e
            && (IsA(e, FileNotFoundException) || IsA(e, FileSystemException) ==> r.code == FileIoError)
            && (e == IOException ==> r.code == NetworkIoError)
  {
    var e := env.writeFile(path, raw.body).value;
    CaughtExactly(e);
    HandlerCodes(e);
  }

  /** A non-JSON body that is not saved to a file (a 2xx without an output
      path, or any non-2xx) is API_GATEWAY_ERROR carrying the raw body,
      status and content type; no other case gives API_GATEWAY_ERROR. */
  lemma GatewayErrorExactly(client: NeutrinoAPIClient, httpMethod: string, endpoint: string, params: Params,
                            outputFilePath: Option<string>, timeoutSeconds: nat, env: Environment)
    requires Callable(client, httpMethod, endpoint, params, timeoutSeconds, env)
    ensures var r := Exec(client, httpMethod, endpoint, params, outputFilePath, timeoutSeconds, env);
            (r.Failure? && r.code == ApiGatewayError)
            <==> exists raw :: Answered(client, httpMethod, endpoint, params, timeoutSeconds, env, raw)
                               && Unsaved(raw, outputFilePath)
    ensures forall raw :: Answered(client, httpMethod, endpoint, params, timeoutSeconds, env, raw)
                          && Unsaved(raw, outputFilePath) ==>
              Exec(client, httpMethod, endpoint, params, outputFilePath, timeoutSeconds, env)
                == Failure(Some(raw.status), Some(raw.contentType), ApiGatewayError,
                           Some(env.decode(raw.contentType, raw.body)))
  {
    var prepared := Prepare(client, httpMethod, endpoint, params, timeoutSeconds, env.urlParses);
    if prepared.Some? {
      var d := prepared.value;
      match env.send(d.request, d.settings)
      case Raised(e) =>
        CaughtExactly(e);
      case Received(raw) =>
        assert Answered(client, httpMethod, endpoint, params, timeoutSeconds, env, raw);
        if IsSuccessful(raw.status) && !IsJsonContent(raw.contentType) && outputFilePath.Some? {
          var w := env.writeFile(outputFilePath.value, raw.body);
          if w.Some? {
            CaughtExactly(w.value);
          }
        }
    }
  }

  /** A non-JSON body that is not written to a file. */
  predicate Unsaved(raw: RawResponse, outputFilePath: Option<string>)
  {
    !IsJsonContent(raw.contentType) && (outputFilePath.None? || !IsSuccessful(raw.status))
  }

  /** A non-2xx JSON error envelope with both api-error and api-error-msg
      gives the remote code and its message; code 1 appends the offending
      parameter's name and type. */
  lemma ErrorEnvelope(client: NeutrinoAPIClient, httpMethod: string, endpoint: string, params: Params,
                      outputFilePath: Option<string>, timeoutSeconds: nat, env: Environment, raw: RawResponse,
                      code: int, message: string)
    requires Callable(client, httpMethod, endpoint, params, timeoutSeconds, env)
    requires Answered(client, httpMethod, endpoint, params, timeoutSeconds, env, raw)
    requires !IsSuccessful(raw.status) && IsJsonContent(raw.contentType)
    requires env.parseJson(env.decode(raw.contentType, raw.body)).Some?
    requires var m := env.parseJson(env.decode(raw.contentType, raw.body)).value.members;
             "api-error" in m && m["api-error"] == JNumber(code) && IsInt32(code)
             && "api-error-msg" in m && m["api-error-msg"] == JString(message)
    ensures var m := env.parseJson(env.decode(raw.contentType, raw.body)).value.members;
            var r := Exec(client, httpMethod, endpoint, params, outputFilePath, timeoutSeconds, env);
            r.Failure? && r.errorStatus == Some(raw.status) && r.errorContentType == Some(raw.contentType)
            && r.code == Remote(code)
            && (code != 1 ==> r.message == Some(message))
            && (code == 1 ==> r.message == Some(message + ", Name: " + AsString(m["api-parameter-name"]).value
                                                        + ", Type: " + AsString(m["api-parameter-type"]).value))
  {
  }

  /** A non-2xx JSON response whose body does not parse is
      INVALID_JSON_RESPONSE, with JsonSyntaxException as its cause. */
  lemma ErrorBodyInvalidJson(client: NeutrinoAPIClient, httpMethod: string, endpoint: string, params: Params,
                             outputFilePath: Option<string>, timeoutSeconds: nat, env: Environment, raw: RawResponse)
    requires Callable(client, httpMethod, endpoint, params, timeoutSeconds, env)
    requires Answered(client, httpMethod, endpoint, params, timeoutSeconds, env, raw)
    requires !IsSuccessful(raw.status) && IsJsonContent(raw.contentType)
    requires env.parseJson(env.decode(raw.contentType, raw.body)).None?
    ensures Exec(client, httpMethod, endpoint, params, outputFilePath, timeoutSeconds, env)
              == Caught(InvalidJsonResponse, JsonSyntaxException)
  {
    HandlerCodes(JsonSyntaxException);
  }

  /** A remote error code is returned exactly when a non-2xx JSON object
      carries both api-error and api-error-msg. */
  lemma RemoteCodeExactly(client: NeutrinoAPIClient, httpMethod: string, endpoint: string, params: Params,
                          outputFilePath: Option<string>, timeoutSeconds: nat, env: Environment)
    requires Callable(client, httpMethod, endpoint, params, timeoutSeconds, env)
    ensures var r := Exec(client, httpMethod, endpoint, params, outputFilePath, timeoutSeconds, env);
            (r.Failure? && r.code.Remote?)
            <==> exists raw :: Answered(client, httpMethod, endpoint, params, timeoutSeconds, env, raw)
                               && EnvelopePresent(raw, env)
  {
    var prepared := Prepare(client, httpMethod, endpoint, params, timeoutSeconds, env.urlParses);
    if prepared.Some? {
      var d := prepared.value;
      match env.send(d.request, d.settings)
      case Raised(e) =>
        CaughtExactly(e);
      case Received(raw) =>
        assert Answered(client, httpMethod, endpoint, params, timeoutSeconds, env, raw);
        if IsSuccessful(raw.status) && !IsJsonContent(raw.contentType) && outputFilePath.Some? {
          var w := env.writeFile(outputFilePath.value, raw.body);
          if w.Some? {
            CaughtExactly(w.value);
          }
        }
        if IsJsonContent(raw.contentType) && env.parseJson(env.decode(raw.contentType, raw.body)).None? {
          CaughtExactly(JsonSyntaxException);
        }
    }
  }

  /** A non-2xx JSON object that has both api-error and api-error-msg. */
  predicate EnvelopePresent(raw: RawResponse, env: Environment)
  {
    !IsSuccessful(raw.status) && IsJsonContent(raw.contentType)
    && var parsed := env.parseJson(env.decode(raw.contentType, raw.body));
       parsed.Some? && parsed.value.JObject?
       && "api-error" in parsed.value.members && "api-error-msg" in parsed.value.members
  }

  /** The NO_DATA placeholder survives in exactly two cases: an empty
      download, and a non-2xx JSON object without both envelope fields. */
  lemma NoDataExactly(client: NeutrinoAPIClient, httpMethod: string, endpoint: string, params: Params,
                      outputFilePath: Option<string>, timeoutSeconds: nat, env: Environment)
    requires Callable(client, httpMethod, endpoint, params, timeoutSeconds, env)
    ensures var r := Exec(client, httpMethod, endpoint, params, outputFilePath, timeoutSeconds, env);
            r == NoDataResponse
            <==> exists raw :: Answered(client, httpMethod, endpoint, params, timeoutSeconds, env, raw)
                               && (EmptyDownload(raw, outputFilePath, env) || EnvelopeMissing(raw, env))
  {
    var prepared := Prepare(client, httpMethod, endpoint, params, timeoutSeconds, env.urlParses);
    if prepared.Some? {
      var d := prepared.value;
      match env.send(d.request, d.settings)
      case Raised(e) =>
        CaughtExactly(e);
      case Received(raw) =>
        assert Answered(client, httpMethod, endpoint, params, timeoutSeconds, env, raw);
        if IsSuccessful(raw.status) && !IsJsonContent(raw.contentType) && outputFilePath.Some? {
          var w := env.writeFile(outputFilePath.value, raw.body);
          if w.Some? {
            CaughtExactly(w.value);
          }
        }
        if IsJsonContent(raw.contentType) && env.parseJson(env.decode(raw.contentType, raw.body)).None? {
          CaughtExactly(JsonSyntaxException);
        }
    }
  }

  /** A 2xx non-JSON body saved to a file that turned out empty. */
  predicate EmptyDownload(raw: RawResponse, outputFilePath: Option<string>, env: Environment)
  {
    IsSuccessful(raw.status) && !IsJsonContent(raw.contentType) && outputFilePath.Some?
    && env.writeFile(outputFilePath.value, raw.body).None? && |raw.body| == 0
  }

  /** A non-2xx JSON object that lacks api-error or api-error-msg. */
  predicate EnvelopeMissing(raw: RawResponse, env: Environment)
  {
    !IsSuccessful(raw.status) && IsJsonContent(raw.contentType)
    && var parsed := env.parseJson(env.decode(raw.contentType, raw.body));
       parsed.Some? && parsed.value.JObject?
       && !("api-error" in parsed.value.members && "api-error-msg" in parsed.value.members)
  }

  // ---------------------------------------------------------------------
  // Failure mapping

  /** An exception raised while sending the request or reading the body is
      mapped by the first matching catch clause and kept as the cause. */
  lemma TransportFailureMapped(client: NeutrinoAPIClient, httpMethod: string, endpoint: string, params: Params,
                               outputFilePath: Option<string>, timeoutSeconds: nat, env: Environment)
    requires Callable(client, httpMethod, endpoint, params, timeoutSeconds, env)
    requires var prepared := Prepare(client, httpMethod, endpoint, params, timeoutSeconds, env.urlParses);
             prepared.Some? && env.send(prepared.value.request, prepared.value.settings).Raised?
    ensures var prepared := Prepare(client, httpMethod, endpoint, params, timeoutSeconds, env.urlParses);
            var e := env.send(prepared.value.request, prepared.value.settings).failure;
            var r := Exec(client, httpMethod, endpoint, params, outputFilePath, timeoutSeconds, env);
            r.Caught? && r.cause == e
            && (IsA(e, ConnectException) ==> r.code == ConnectTimeout)
            && (IsA(e, SocketTimeoutException) ==> r.code == ReadTimeout)
            && (IsA(e, UnknownHostException) ==> r.code == DnsLookupFailed)
            && (IsA(e, SSLException) ==> r.code == TlsProtocolError)
            && (IsA(e, FileNotFoundException) || IsA(e, FileSystemException) ==> r.code == FileIoError)
            && (!IsA(e, ConnectException) && !IsA(e, SocketTimeoutException) && !IsA(e, UnknownHostException)
                && !IsA(e, SSLException) && !IsA(e, FileNotFoundException) && !IsA(e, FileSystemException)
                ==> r.code == NetworkIoError)
  {
    var prepared := Prepare(client, httpMethod, endpoint, params, timeoutSeconds, env.urlParses);
    var e := env.send(prepared.value.request, prepared.value.settings).failure;
    CaughtExactly(e);
    HandlerCodes(e);
  }
}
