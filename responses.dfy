/** The value execRequest returns (APIResponse) and its error codes
    (APIErrorCode). Neither class is part of this model, so the numeric
    values of the local codes, and what APIResponse.of(code, cause) puts in
    its status and content-type fields, are left abstract. */
module Responses {
  import opened Wrappers
  import opened Json
  import opened Exceptions

  datatype ErrorCode =
    | NoData
    | UrlParsingError
    | InvalidJsonResponse
    | ConnectTimeout
    | ReadTimeout
    | DnsLookupFailed
    | FileIoError
    | TlsProtocolError
    | NetworkIoError
    | ApiGatewayError
    | Remote(apiError: int)   // the "api-error" value reported by the service

  datatype APIResponse =
    /** APIResponse.of(status, contentType, json) */
    | JsonData(status: int, contentType: string, data: map<string, JsonValue>)
    /** APIResponse.of(status, contentType, path) */
    | FileData(status: int, contentType: string, path: string)
    /** APIResponse.of(status, contentType, code[, message]); None stands for
        NO_STATUS, NO_CONTENT_TYPE, or a message the code itself supplies. */
    | Failure(errorStatus: Option<int>, errorContentType: Option<string>, code: ErrorCode, message: Option<string>)
    /** APIResponse.of(code, cause) for a caught exception */
    | Caught(code: ErrorCode, cause: ExceptionClass)

  /** The placeholder execRequest starts from: NO_STATUS, NO_CONTENT_TYPE, NO_DATA. */
  const NoDataResponse: APIResponse := Failure(None, None, NoData, None)
}
