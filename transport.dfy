/**
 * One upstream attempt (main.py:31-56): send the request, and turn a transport-level exception
 * into the HTTP error the handler raises, or hand the response on.
 */
module Transport {
  import opened Wrappers
  import opened Strings
  import opened Upstream

  /** The upstream endpoint every request goes to. */
  const ApiBaseUrl := "https://tele-social.vercel.app/down"

  /** Which `except` clause catches an exception; the first that matches wins. */
  datatype ExceptionType = Timeout | ConnectionError | OtherRequestError

  /** The three shapes of the helper's result dictionary (`"type"` is error_upstream, success or exception). */
  datatype FetchResult =
    | ErrorUpstream(resp: Response)
    | Fetched(resp: Response)
    | Exception(kind: ExceptionType, detail: string)

  /** An `HTTPException` the handler raises. */
  datatype HttpError = HttpError(status: int, detail: string)

  /** The clauses are tried in order, so an exception that is both a timeout and a connection error is a timeout. */
  function KindOf(e: RequestException): (k: ExceptionType)
    ensures k == Timeout <==> e.isTimeout
    ensures k == ConnectionError <==> !e.isTimeout && e.isConnectionError
    ensures k == OtherRequestError <==> !e.isTimeout && !e.isConnectionError
  {
    if e.isTimeout then Timeout
    else if e.isConnectionError then ConnectionError
    else OtherRequestError
  }

  /** The detail message of each clause; every one of them names the target URL. */
  function Detail(kind: ExceptionType, target: string, message: string): (d: string)
    ensures Contains(d, target)
  {
    match kind
    case Timeout =>
      ContainsInfix("Request to upstream API timed out for URL: ", target, "");
      assert "Request to upstream API timed out for URL: " + target + "" == "Request to upstream API timed out for URL: " + target;
      "Request to upstream API timed out for URL: " + target
    case ConnectionError =>
      ContainsInfix("Could not connect to upstream API for URL: ", target, "");
      assert "Could not connect to upstream API for URL: " + target + "" == "Could not connect to upstream API for URL: " + target;
      "Could not connect to upstream API for URL: " + target
    case OtherRequestError =>
      ContainsInfix("Upstream API request error for ", target, ": " + message);
      assert "Upstream API request error for " + target + (": " + message)
          == "Upstream API request error for " + target + ": " + message;
      "Upstream API request error for " + target + ": " + message
  }

  /** The outward status of each kind of transport failure. */
  function StatusOf(kind: ExceptionType): (s: int)
    ensures s == 504 <==> kind == Timeout
    ensures s == 503 <==> kind == ConnectionError
    ensures s == 500 <==> kind == OtherRequestError
  {
    match kind
    case Timeout => 504
    case ConnectionError => 503
    case OtherRequestError => 500
  }

  /** The HTTP error a transport failure of `target` ends in. */
  function TransportError(target: string, e: RequestException): (err: HttpError)
    ensures err.status == 504 <==> e.isTimeout
    ensures err.status == 503 <==> !e.isTimeout && e.isConnectionError
    ensures err.status == 500 <==> !e.isTimeout && !e.isConnectionError
    ensures Contains(err.detail, target)
  {
    var kind := KindOf(e);
    HttpError(StatusOf(kind), Detail(kind, target, e.message))
  }

  /** `_fetch_from_tele_social_sync`: one request upstream, exceptions caught and tagged. */
  method FetchSync(target: string, net: Network) returns (r: FetchResult)
    modifies net
    ensures net.log == old(net.log) + [UpstreamRequest(ApiBaseUrl, target)]
    ensures net.wire.Raise? ==>
      r == Exception(KindOf(net.wire.e), Detail(KindOf(net.wire.e), target, net.wire.e.message))
    ensures net.wire.Answer? ==>
      && (r.ErrorUpstream? <==> net.wire.m.status >= 400)
      && !r.Exception?
      && fresh(r.resp) && r.resp.message == net.wire.m && r.resp.closes == 0
  {
    var attempt := net.Get(ApiBaseUrl, target);
    match attempt
    case Raised(e) =>
      var kind := KindOf(e);
      r := Exception(kind, Detail(kind, target, e.message));
    case Responded(resp) =>
      if resp.message.status >= 400 {
        r := ErrorUpstream(resp);
      } else {
        r := Fetched(resp);
      }
  }

  /** `get_content_from_tele_social`: the response, whatever its status, or the mapped HTTP error. */
  method GetContent(target: string, net: Network) returns (r: Result<Response, HttpError>)
    modifies net
    ensures net.log == old(net.log) + [UpstreamRequest(ApiBaseUrl, target)]
    ensures net.wire.Raise? ==> r == Failure(TransportError(target, net.wire.e))
    ensures net.wire.Answer? ==>
      r.Success? && fresh(r.value) && r.value.message == net.wire.m && r.value.closes == 0
  {
    var fetched := FetchSync(target, net);
    match fetched
    case Exception(kind, detail) =>
      r := Failure(HttpError(StatusOf(kind), detail));
    case ErrorUpstream(resp) =>
      r := Success(resp);
    case Fetched(resp) =>
      r := Success(resp);
  }
}
