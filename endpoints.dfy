/** The public endpoint methods of NeutrinoAPIClient. Each one is a single
    call of execRequest with a fixed HTTP method, path and timeout, passing
    its output path only when it has one; the list below is that
    configuration as data. */
module Endpoints {
  import opened Wrappers
  import opened Http
  import opened Responses
  import opened NeutrinoApiClient

  datatype Endpoint = Endpoint(name: string, httpMethod: string, path: string,
                               takesOutputPath: bool, timeoutSeconds: nat)

  const Catalog: seq<Endpoint> := [
    Endpoint("badWordFilter", "POST", "bad-word-filter", false, 30),
    Endpoint("binListDownload", "POST", "bin-list-download", true, 30),
    Endpoint("binLookup", "GET", "bin-lookup", false, 10),
    Endpoint("browserBot", "POST", "browser-bot", false, 300),
    Endpoint("convert", "GET", "convert", false, 10),
    Endpoint("domainLookup", "GET", "domain-lookup", false, 300),
    Endpoint("emailValidate", "GET", "email-validate", false, 30),
    Endpoint("emailVerify", "GET", "email-verify", false, 300),
    Endpoint("geocodeAddress", "GET", "geocode-address", false, 30),
    Endpoint("geocodeReverse", "GET", "geocode-reverse", false, 30),
    Endpoint("hlrLookup", "GET", "hlr-lookup", false, 30),
    Endpoint("hostReputation", "GET", "host-reputation", false, 300),
    Endpoint("htmlClean", "POST", "html-clean", true, 30),
    Endpoint("htmlRender", "POST", "html-render", true, 300),
    Endpoint("imageResize", "POST", "image-resize", true, 30),
    Endpoint("imageWatermark", "POST", "image-watermark", true, 30),
    Endpoint("ipBlocklist", "GET", "ip-blocklist", false, 10),
    Endpoint("ipBlocklistDownload", "POST", "ip-blocklist-download", true, 30),
    Endpoint("ipInfo", "GET", "ip-info", false, 10),
    Endpoint("ipProbe", "GET", "ip-probe", false, 300),
    Endpoint("phonePlayback", "POST", "phone-playback", false, 30),
    Endpoint("phoneValidate", "GET", "phone-validate", false, 10),
    Endpoint("phoneVerify", "POST", "phone-verify", false, 30),
    Endpoint("qrCode", "POST", "qr-code", true, 30),
    Endpoint("smsVerify", "POST", "sms-verify", false, 30),
    Endpoint("uaLookup", "GET", "ua-lookup", false, 10),
    Endpoint("urlInfo", "GET", "url-info", false, 30),
    Endpoint("verifySecurityCode", "GET", "verify-security-code", false, 30)
  ]

  /** The endpoint method: execRequest with the endpoint's configuration;
      an endpoint without an output-path parameter passes null. */
  function Invoke(client: NeutrinoAPIClient, endpoint: Endpoint, params: Params,
                  outputFilePath: Option<string>, env: Environment): (r: APIResponse)
    requires ValidTimeout(endpoint.timeoutSeconds)
    requires CallHandled(client, endpoint.httpMethod, endpoint.path, params, endpoint.timeoutSeconds, env)
    ensures !endpoint.takesOutputPath ==> !r.FileData?
    ensures r.FileData? ==> outputFilePath == Some(r.path)
  {
    Exec(client, endpoint.httpMethod, endpoint.path, params,
         if endpoint.takesOutputPath then outputFilePath else None, endpoint.timeoutSeconds, env)
  }

  /** Every endpoint uses GET or POST with one of three timeouts OkHttp
      accepts, and every endpoint that saves a file is a POST. */
  lemma CatalogConfigured(i: nat)
    requires i < |Catalog|
    ensures Catalog[i].httpMethod in {"GET", "POST"}
    ensures Catalog[i].timeoutSeconds in {10, 30, 300}
    ensures ValidTimeout(Catalog[i].timeoutSeconds)
    ensures Catalog[i].takesOutputPath ==> Catalog[i].httpMethod == "POST"
  {
  }
}
