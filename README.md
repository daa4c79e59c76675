# NeutrinoAPI OkHttp client: the request engine

This project models the request engine of the Neutrino API Java client
(`NeutrinoAPIClient.execRequest`) and proves what it promises. Every public
endpoint method of the client calls this one private method. It does four things:

1. It builds an OkHttp request from the HTTP method, the base URL plus the
   endpoint path, the parameter map and the `User-ID` / `API-Key`
   credentials. For a GET the parameters go into the query; for any other
   method string the request is a POST with the parameters in a form body.
2. It runs the request on a per-call copy of the shared static `OkHttpClient`,
   with read and write timeouts set to the endpoint's timeout.
3. It classifies the response by status (2xx or not) and content type
   (`application/json` or not). The result is JSON data, a saved file, an
   error envelope from the API, an `API_GATEWAY_ERROR` carrying the raw body,
   or the initial `NO_DATA` placeholder.
4. It maps every exception its catch clauses handle to an error code. The
   first matching clause wins.

Everything the engine delegates to a library or to the system is a field of
`NeutrinoApiClient.Environment`, given as a total function:

- URL parsing (`HttpUrl.parse`);
- the HTTP exchange, including DNS, connecting, TLS and reading the body;
- body decoding (`ResponseBody.string`), given the content type, which names the charset;
- JSON parsing (Gson);
- writing the body to the output file.

`Exec` is the engine as a function of its arguments and that environment.
`ExecRequest` is the engine as the Java method runs it: a mutable `response`
reassigned branch by branch, and `params.forEach` loops that add the pairs
one at a time. It is proved equal to `Exec`. The endpoint methods are a
declarative table (`Endpoints.Catalog`) that feeds the engine.

Modules, one per concern:

- `Wrappers`: the option type (Java nulls).
- `Exceptions`: the JDK/Gson exception classes involved, with `extends` and `instanceof`.
- `Json`: Gson values and the accessors `getAsInt` / `getAsString`.
- `Http`: requests, parameters, client timeouts, raw responses, `String.contains`.
- `Responses`: `APIResponse` and the error codes.
- `FailureMapping`: the catch clauses as data, and their properties.
- `NeutrinoApiClient`: the engine.
- `NeutrinoApiClientProperties`: what the engine promises.
- `Endpoints`: the endpoint table.

Some of the engine's behaviour is easy to miss when reading it. The model follows the code in each case:

- A 2xx non-JSON download that leaves an empty file does not produce
  `API_GATEWAY_ERROR`. The `NO_DATA` placeholder from line 619 survives,
  because the assignment at line 659 is skipped.
- A non-2xx JSON object without both `api-error` and `api-error-msg` also
  leaves `NO_DATA`. There is no `else` branch at line 670.
- "Successful" means status 200 to 299 inclusive (OkHttp's `isSuccessful`).
- A plain `IOException` while writing the output file (a full disk, say) is
  `NETWORK_IO_ERROR`, not `FILE_IO_ERROR`. Only `FileNotFoundException` and
  `FileSystemException` reach the `FILE_IO_ERROR` clause.
- `NoRouteToHostException` is a `SocketException` but not a
  `ConnectException`, so it gives `NETWORK_IO_ERROR`.

## Model

| member | source | states |
|---|---|---|
| `NeutrinoApiClient.Exec` | src/main/java/com/neutrinoapi/client/NeutrinoAPIClient.java:618-704 | JSON data only for a 2xx status and a JSON content type; a file result only for a 2xx non-JSON response, naming the caller's output path; a caught exception carries the code of the first matching catch clause |
| `NeutrinoApiClient.ExecRequest` | src/main/java/com/neutrinoapi/client/NeutrinoAPIClient.java:618-704 | the imperative engine: NO_DATA start, parameters added pair by pair (GET query or POST form), branch-by-branch reassignment, catch mapping; returns exactly what `Exec` specifies |
| `NeutrinoApiClient.Classify` | src/main/java/com/neutrinoapi/client/NeutrinoAPIClient.java:645-684 | the try body exits by exception only with Gson's JsonSyntaxException or an I/O exception, so every exit is caught |
| `NeutrinoApiClient.PerCallSettings` | src/main/java/com/neutrinoapi/client/NeutrinoAPIClient.java:620-623 | the per-call client keeps the shared connect timeout and sets read and write timeouts to the call's timeout |
| `NeutrinoApiClient.DefaultClient` | src/main/java/com/neutrinoapi/client/NeutrinoAPIClient.java:56-60 | the two-argument constructor targets the multicloud endpoint with the given credentials |
| `NeutrinoApiClientProperties.PrepareTarget` | src/main/java/com/neutrinoapi/client/NeutrinoAPIClient.java:620-630 | no request exists exactly when base URL + endpoint does not parse; otherwise the target is base URL + endpoint, the two credential headers are set, read/write timeouts equal the call's timeout and connect stays 10 s |
| `NeutrinoApiClientProperties.GetRequestCarriesParamsInQuery` | src/main/java/com/neutrinoapi/client/NeutrinoAPIClient.java:631-635 | method "GET": every parameter, empty values included, is one query parameter with its value, the query read as a map is the parameter map, no body |
| `NeutrinoApiClientProperties.OtherMethodsPostForm` | src/main/java/com/neutrinoapi/client/NeutrinoAPIClient.java:636-643 | any other method string: a POST whose form holds every parameter (same map, same count) and no query parameters |
| `NeutrinoApiClientProperties.ParamsAsMap` | src/main/java/com/neutrinoapi/client/NeutrinoAPIClient.java:634-640 | a parameter list with distinct names read back as a map has one key per pair and each pair's value: the Java Map survives being added pair by pair |
| `NeutrinoApiClientProperties.PerCallSettingsIndependent` | src/main/java/com/neutrinoapi/client/NeutrinoAPIClient.java:40-48 | every call's client has the 10-second connect timeout; two calls' settings differ exactly when their timeouts do; the shared client sets no read/write timeout |
| `NeutrinoApiClientProperties.UrlParsingErrorExactly` | src/main/java/com/neutrinoapi/client/NeutrinoAPIClient.java:625-627 | URL_PARSING_ERROR exactly when base URL + endpoint does not parse, then with NO_STATUS/NO_CONTENT_TYPE and independent of transport, parser and file system (nothing is sent) |
| `NeutrinoApiClientProperties.JsonSuccessWins` | src/main/java/com/neutrinoapi/client/NeutrinoAPIClient.java:648-653 | 2xx + JSON content type: JSON data with that status and content type, even with an output path; unparsable JSON is INVALID_JSON_RESPONSE |
| `NeutrinoApiClientProperties.DownloadNamesFileIffNonEmpty` | src/main/java/com/neutrinoapi/client/NeutrinoAPIClient.java:654-660 | 2xx non-JSON with an output path: a file result naming the path if and only if the written file is non-empty, otherwise the NO_DATA placeholder |
| `NeutrinoApiClientProperties.DownloadWriteFailure` | src/main/java/com/neutrinoapi/client/NeutrinoAPIClient.java:655-657 | a failed file write is caught with the exception as cause: FILE_IO_ERROR for FileNotFoundException/FileSystemException, NETWORK_IO_ERROR for a plain IOException |
| `NeutrinoApiClientProperties.GatewayErrorExactly` | src/main/java/com/neutrinoapi/client/NeutrinoAPIClient.java:661-682 | API_GATEWAY_ERROR if and only if the answered response is non-JSON and not saved (2xx without output path, or non-2xx); every such response gives API_GATEWAY_ERROR with its status, content type and raw body |
| `NeutrinoApiClientProperties.ErrorEnvelope` | src/main/java/com/neutrinoapi/client/NeutrinoAPIClient.java:668-679 | non-2xx JSON with api-error and api-error-msg: the remote code and message with status and content type; code 1 appends ", Name: <name>, Type: <type>" |
| `NeutrinoApiClientProperties.ErrorBodyInvalidJson` | src/main/java/com/neutrinoapi/client/NeutrinoAPIClient.java:665-689 | non-2xx with a JSON content type whose body does not parse: INVALID_JSON_RESPONSE with JsonSyntaxException as cause |
| `NeutrinoApiClientProperties.RemoteCodeExactly` | src/main/java/com/neutrinoapi/client/NeutrinoAPIClient.java:665-678 | a remote error code is returned if and only if the response is a non-2xx JSON object carrying both api-error and api-error-msg |
| `NeutrinoApiClientProperties.NoDataExactly` | src/main/java/com/neutrinoapi/client/NeutrinoAPIClient.java:619-670 | the NO_DATA placeholder is returned exactly for an empty download or a non-2xx JSON object lacking an envelope field |
| `NeutrinoApiClientProperties.TransportFailureMapped` | src/main/java/com/neutrinoapi/client/NeutrinoAPIClient.java:688-702 | a transport exception is returned as its cause with CONNECT_TIMEOUT, READ_TIMEOUT, DNS_LOOKUP_FAILED, TLS_PROTOCOL_ERROR, FILE_IO_ERROR or else NETWORK_IO_ERROR, by class and subclass |
| `FailureMapping.FirstHandlerIsFirstMatch` | src/main/java/com/neutrinoapi/client/NeutrinoAPIClient.java:688-702 | the chosen clause is the earliest one that catches the exception, and none is chosen only when no clause catches it |
| `FailureMappingProperties.HandlerCodeChain` | src/main/java/com/neutrinoapi/client/NeutrinoAPIClient.java:688-702 | the clause list behaves as the chain of instanceof tests in source order |
| `FailureMappingProperties.CaughtExactly` | src/main/java/com/neutrinoapi/client/NeutrinoAPIClient.java:688-702 | an exception is caught if and only if it is an IOException or a JsonSyntaxException |
| `FailureMappingProperties.HandlerCodes` | src/main/java/com/neutrinoapi/client/NeutrinoAPIClient.java:688-702 | the code for each caught class and all its subclasses, with NETWORK_IO_ERROR for every other IOException |
| `Json.AsInt` | src/main/java/com/neutrinoapi/client/NeutrinoAPIClient.java:671 | getAsInt of an integral JSON number is its low 32 bits as a two's-complement int, always within int range |
| `Json.ToInt32` | src/main/java/com/neutrinoapi/client/NeutrinoAPIClient.java:671 | the int result is in range, congruent to the number modulo 2^32, and equal to it when it fits |
| `Json.AsString` | src/main/java/com/neutrinoapi/client/NeutrinoAPIClient.java:672-676 | getAsString returns a JSON string unchanged and fails on null and objects |
| `Http.Contains` | src/main/java/com/neutrinoapi/client/NeutrinoAPIClient.java:650 | String.contains is true exactly when the searched text occurs at some index |
| `Http.AsMap` | src/main/java/com/neutrinoapi/client/NeutrinoAPIClient.java:634 | every pair's name is a key, and every key comes from a pair carrying its value |
| `Endpoints.Invoke` | src/main/java/com/neutrinoapi/client/NeutrinoAPIClient.java:88-613 | an endpoint method is execRequest with its configuration; one without an output path never returns a file result, and a file result names the caller's path |
| `Endpoints.CatalogConfigured` | src/main/java/com/neutrinoapi/client/NeutrinoAPIClient.java:88-613 | every endpoint uses GET or POST with a 10, 30 or 300 second timeout OkHttp accepts, and every endpoint that saves a file is a POST |

## Left out

- Transport: OkHttp, the connection pool, sockets, DNS and TLS. Each is the
  `send` function of the environment. It returns a raw response or raises an
  I/O exception class.
- A failure while reading the body: folded into `send`, since the same catch
  clauses handle it. For a download this loses the order of events. The source
  opens the output file (line 655) before it streams the body (line 656). So a
  `FileNotFoundException` or `FileSystemException` on the path wins over a
  body read failure, and a failure during the copy leaves a partial file. In
  the model a failure of `send` always wins, and the file is never partial.
- Percent-encoding of query parameters and form fields (OkHttp's builders).
  Both are kept as lists of name/value pairs.
- The grammar of `HttpUrl.parse` and of Gson's parser. Each is an abstract
  function of the environment.
- File I/O: the written file's length is taken to be the body's length when
  the write raises nothing.
- `APIResponse` and `APIErrorCode` are not part of this model. The numeric
  values of the local codes are abstract, so a remote code colliding with a
  local one cannot be expressed. Neither can the status or content type that
  `APIResponse.of(code, cause)` records.
- Exceptions that no catch clause handles are preconditions (`ReplyHandled`,
  `ValidTimeout`, `ValidHeaderValue`), not results. These are:
  - a JSON body that is not an object;
  - an envelope member whose accessor throws;
  - `api-error` 1 without the parameter name and type;
  - a timeout over Integer.MAX_VALUE milliseconds (a negative one is excluded
    by the type `nat`);
  - a credential holding a character other than a tab or printable ASCII
    (a control character or any non-ASCII character), once the URL has parsed (the
    headers are set only then; an unparsable URL gives `URL_PARSING_ERROR`
    whatever the credentials hold).
- Java nulls are excluded by the types. These are:
  - a null response body or content type;
  - a null `httpMethod`, which throws an uncaught `NullPointerException` at line 631;
  - a null `params`, which throws an uncaught `NullPointerException` at line 634 or 640;
  - a null parameter value, which `addQueryParameter` adds as a name without a
    value for a GET, and which `FormBody.Builder.add` rejects, uncaught, for a POST;
  - a null credential, which throws, uncaught, only once the URL has parsed;
  - a null parameter name, which `addQueryParameter` (line 634) and
    `FormBody.Builder.add` (line 640) reject with an uncaught exception.
- Json.AsInt: Gson's `getAsInt` on a JSON string (`Integer.parseInt`) is not
  modelled. It yields None, which the precondition excludes. JSON numbers are
  integral in this model, so Gson's truncation of a fractional number (an
  `api-error` of 1.5 reads as 1 and takes the code-1 branch) cannot be expressed.
- Json.AsString: JSON numbers are integral and written in canonical decimal.
  Gson's lexeme-preserving text for other number forms is not modelled.
- Only the JDK and Gson exception classes this engine meets are listed in
  `Exceptions`, with their `extends` relation.
- The example programs `GeocodeReverse`, `ImageWatermark` and
  `BINListDownload`. They are console drivers.
- Concurrency of callers sharing the static client. The shared client is a
  constant value here, and each call derives its own settings from it.

