/**
 * The `/download/` handler (main.py:58-149): reject an empty target URL, make one upstream
 * attempt, classify the answer (upstream error, JSON payload or file), build the reply, and
 * close the upstream response. As written, two paths leave it open (`StreamReplyAsWritten`,
 * `ServeAsWritten`); the corrected `StreamReply` and `Serve` close it exactly once on every path.
 */
module Proxy {
  import opened Wrappers
  import opened Strings
  import opened Library
  import opened Upstream
  import opened Transport
  import opened Filenames

  const UrlRequiredDetail := "The 'url' query parameter is required."
  const MalformedJsonDetail := "Upstream API returned malformed JSON despite declaring JSON content type."
  const JsonServerErrorDetail := "Server error while processing upstream JSON response."
  /** The body of the framework's reply to an exception the endpoint does not catch. */
  const ServerErrorDetail := "Internal Server Error"

  function ErrorBodyFailure(message: string): string {
    "Failed to read or process error response from upstream API: " + message
  }

  /** What the handler ends in. */
  datatype Decision =
    | Respond(status: int, body: Json)                  // a JSONResponse
    | Reject(status: int, detail: string)               // an HTTPException, or the framework's plain-text 500 for an uncaught exception
    | Stream(status: int, headers: map<string, string>) // a StreamingResponse

  /** The three ways an upstream answer is handled. */
  datatype Branch = UpstreamError | JsonPayload | FileStream

  /** The lower-cased content type the classification looks at (main.py:83). */
  function ContentTypeOf(m: Message): string {
    Lower(m.Header("content-type", ""))
  }

  /** main.py:85 and main.py:100: errors first, then a declared JSON type, then everything else. */
  function BranchOf(status: int, contentType: string): (b: Branch)
    ensures b == UpstreamError <==> status >= 400
    ensures b == JsonPayload <==> status < 400 && Contains(contentType, "application/json")
    ensures b == FileStream <==> status < 400 && !Contains(contentType, "application/json")
  {
    if status >= 400 then UpstreamError
    else if Contains(contentType, "application/json") then JsonPayload
    else FileStream
  }

  /** The body that reports an upstream error whose text is not JSON. */
  function ErrorWrapper(text: string, status: int): (j: Json)
    ensures j.Obj? && |j.members| == 3
    ensures Lookup(j.members, "error") == Some(Str("Upstream API error"))
    ensures Lookup(j.members, "details") == Some(Str(text))
    ensures Lookup(j.members, "upstream_status_code") == Some(Int(status))
  {
    var ms := [("error", Str("Upstream API error")), ("details", Str(text)), ("upstream_status_code", Int(status))];
    assert |"error"| == 5 && |"details"| == 7 && |"upstream_status_code"| == 20;
    assert Lookup(ms[2..], "upstream_status_code") == Some(Int(status));
    assert Lookup(ms[1..], "details") == Some(Str(text));
    assert Lookup(ms[1..], "upstream_status_code") == Lookup(ms[2..], "upstream_status_code");
    Obj(ms)
  }

  /**
   * main.py:86-98, given what reading the error body gave. Anything that raises inside the outer
   * `try` (the read, a non-decoding failure of `json.loads`, rendering the reply) ends in 502.
   */
  function ErrorBodyDecision(status: int, text: Result<string, string>, rt: Runtime): (d: Decision)
    ensures d.Respond? || d.Reject?
    ensures d.Respond? ==> d.status == status && rt.renderError(d.body).None?
    ensures d.Reject? ==> d.status == 502
    ensures text.Failure? ==> d == Reject(502, ErrorBodyFailure(text.error))
    ensures d.Respond? ==> text.Success? && (rt.parse(text.value) == Parsed(d.body) ||
                                             (rt.parse(text.value).Malformed? && d.body == ErrorWrapper(text.value, status)))
  {
    match text
    case Failure(m) => Reject(502, ErrorBodyFailure(m))
    case Success(t) =>
      var content := match rt.parse(t)
        case Parsed(j) => Success(j)
        case Malformed(_) => Success(ErrorWrapper(t, status))
        case Crashed(m) => Failure(m);
      match content
      case Failure(m) => Reject(502, ErrorBodyFailure(m))
      case Success(j) =>
        match rt.renderError(j)
        case Some(m) => Reject(502, ErrorBodyFailure(m))
        case None => Respond(status, j)
  }

  /**
   * main.py:101-109, given what `resp.json()` gave: a decoding error is 502, any other failure
   * (reading the body, rendering the reply) is 500.
   */
  function JsonBodyDecision(status: int, parsed: ParseResult, rt: Runtime): (d: Decision)
    ensures d.Respond? || d.Reject?
    ensures d.Respond? ==> d.status == status && parsed == Parsed(d.body) && rt.renderError(d.body).None?
    ensures d.Reject? ==> d.status == 502 || d.status == 500
    ensures d == Reject(502, MalformedJsonDetail) <==> parsed.Malformed?
    ensures d.Reject? && !parsed.Malformed? ==> d == Reject(500, JsonServerErrorDetail)
  {
    match parsed
    case Parsed(j) =>
      if rt.renderError(j).None? then Respond(status, j) else Reject(500, JsonServerErrorDetail)
    case Malformed(_) => Reject(502, MalformedJsonDetail)
    case Crashed(_) => Reject(500, JsonServerErrorDetail)
  }

  /** `headers.get(name)` */
  function OptionalHeader(up: map<string, string>, name: string): Option<string> {
    if name in up then Some(up[name]) else None
  }

  /** The Content-Disposition offered when the upstream answer has none. */
  function SynthesizedDisposition(up: map<string, string>, url: string, rt: Runtime): string {
    Attachment(SynthesizedFilename(url, OptionalHeader(up, "content-type"), rt))
  }

  /**
   * The outward headers of a file stream: Content-Type and Content-Length copied when the
   * upstream has them and absent otherwise, Content-Disposition copied or else `disposition`,
   * and nothing more.
   */
  ghost predicate StreamHeadersSpec(up: map<string, string>, disposition: string, h: map<string, string>) {
    && h.Keys <= {"Content-Type", "Content-Disposition", "Content-Length"}
    && ("Content-Type" in h <==> "content-type" in up)
    && ("Content-Type" in h ==> h["Content-Type"] == up["content-type"])
    && "Content-Disposition" in h
    && h["Content-Disposition"] == (if "content-disposition" in up then up["content-disposition"] else disposition)
    && ("Content-Length" in h <==> "content-length" in up)
    && ("Content-Length" in h ==> h["Content-Length"] == up["content-length"])
  }

  /** The specification leaves no choice: at most one header map meets it. */
  lemma StreamHeadersSpecUnique(up: map<string, string>, disposition: string, h1: map<string, string>, h2: map<string, string>)
    requires StreamHeadersSpec(up, disposition, h1) && StreamHeadersSpec(up, disposition, h2)
    ensures h1 == h2
  {
  }

  /** The header map of main.py:111-136, as a value. */
  function StreamHeaders(up: map<string, string>, url: string, rt: Runtime): (h: map<string, string>)
    ensures StreamHeadersSpec(up, SynthesizedDisposition(up, url, rt), h)
  {
    var disposition := if "content-disposition" in up then up["content-disposition"] else SynthesizedDisposition(up, url, rt);
    (if "content-type" in up then map["Content-Type" := up["content-type"]] else map[])
    + map["Content-Disposition" := disposition]
    + (if "content-length" in up then map["Content-Length" := up["content-length"]] else map[])
  }

  /** main.py:111-136: `response_headers` filled key by key. */
  method BuildStreamHeaders(url: string, up: map<string, string>, rt: Runtime) returns (h: map<string, string>)
    ensures StreamHeadersSpec(up, SynthesizedDisposition(up, url, rt), h)
  {
    h := map[];
    if "content-type" in up {
      h := h["Content-Type" := up["content-type"]];
    }
    if "content-disposition" in up {
      h := h["Content-Disposition" := up["content-disposition"]];
    } else {
      var copiedType := if "Content-Type" in h then Some(h["Content-Type"]) else None;
      var disposition := SynthesizeDisposition(url, copiedType, rt);
      h := h["Content-Disposition" := disposition];
    }
    if "content-length" in up {
      h := h["Content-Length" := up["content-length"]];
    }
  }

  /**
   * Whether `StreamingResponse` can encode a header map: it encodes every name and value as
   * Latin-1 when it is built (main.py:145-149), and raises otherwise.
   */
  predicate HeadersEncodable(h: map<string, string>) {
    forall k | k in h :: Latin1(k) && Latin1(h[k])
  }

  /** The reply to an answer that is streamed: the stream, or a 500 when its headers cannot be encoded. */
  function StreamDecision(status: int, h: map<string, string>): (d: Decision)
    ensures d.Stream? <==> HeadersEncodable(h)
    ensures d.Stream? ==> d == Stream(status, h)
    ensures d.Reject? ==> d == Reject(500, ServerErrorDetail)
  {
    if HeadersEncodable(h) then Stream(status, h) else Reject(500, ServerErrorDetail)
  }

  /** The whole handler as a function of the target URL, what the upstream does, and the libraries. */
  function Decide(url: string, wire: Wire, rt: Runtime): (d: Decision)
    ensures url == "" ==> d == Reject(400, UrlRequiredDetail)
    ensures url != "" && wire.Raise? ==> d.Reject? && d.status in {504, 503, 500}
    ensures d.Respond? || d.Stream? ==> url != "" && wire.Answer? && d.status == wire.m.status
    ensures d.Respond? ==> rt.renderError(d.body).None?
    ensures d.Stream? ==> && wire.m.status < 400 && !Contains(ContentTypeOf(wire.m), "application/json")
                          && StreamHeadersSpec(wire.m.headers, SynthesizedDisposition(wire.m.headers, url, rt), d.headers)
                          && HeadersEncodable(d.headers)
    ensures d.Reject? ==> d.status in {400, 500, 502, 503, 504}
  {
    if url == "" then Reject(400, UrlRequiredDetail)
    else
      match wire
      case Raise(e) =>
        var err := TransportError(url, e);
        Reject(err.status, err.detail)
      case Answer(m) =>
        match BranchOf(m.status, ContentTypeOf(m))
        case UpstreamError => ErrorBodyDecision(m.status, m.Text(rt), rt)
        case JsonPayload => JsonBodyDecision(m.status, m.Json(rt), rt)
        case FileStream => StreamDecision(m.status, StreamHeaders(m.headers, url, rt))
  }

  /** `_read_text_and_close_sync`: read the text, and close whether or not reading raised. */
  method ReadTextAndClose(resp: Response, rt: Runtime) returns (r: Result<string, string>)
    modifies resp`closes
    ensures resp.closes == old(resp.closes) + 1
    ensures r == resp.message.Text(rt)
  {
    r := resp.message.Text(rt);
    resp.Close();
  }

  /** `_parse_json_and_close_sync`: read and parse, and close whether or not that raised. */
  method ParseJsonAndClose(resp: Response, rt: Runtime) returns (r: ParseResult)
    modifies resp`closes
    ensures resp.closes == old(resp.closes) + 1
    ensures r == resp.message.Json(rt)
  {
    r := resp.message.Json(rt);
    resp.Close();
  }

  /**
   * main.py:145-149 corrected: build the streaming reply, and when its headers cannot be encoded
   * close the upstream response before the 500 goes out, since no generator will ever close it.
   */
  method StreamReply(status: int, headers: map<string, string>, resp: Response) returns (d: Decision, body: Response?)
    modifies resp`closes
    ensures d == StreamDecision(status, headers)
    ensures d.Stream? ==> body == resp && resp.closes == old(resp.closes)
    ensures d.Reject? ==> body == null && resp.closes == old(resp.closes) + 1
  {
    d := StreamDecision(status, headers);
    if d.Stream? {
      body := resp;
    } else {
      body := null;
      resp.Close();
    }
  }

  /**
   * main.py:145-149 as written: when `StreamingResponse` raises on the headers, the generator that
   * would close the upstream response is never started, and nothing else closes it.
   */
  method StreamReplyAsWritten(status: int, headers: map<string, string>, resp: Response) returns (d: Decision, body: Response?)
    ensures d == StreamDecision(status, headers)
    ensures d.Stream? ==> body == resp
    ensures d.Reject? ==> body == null
  {
    d := StreamDecision(status, headers);
    body := if d.Stream? then resp else null;
  }

  /** An answer the handler hands to the streaming reply (main.py:112-149). */
  predicate ReachesStream(url: string, wire: Wire) {
    url != "" && wire.Answer? && BranchOf(wire.m.status, ContentTypeOf(wire.m)) == FileStream
  }

  /** A streamed answer whose reply headers cannot be encoded, so main.py:145 raises. */
  predicate HeadersRefused(url: string, wire: Wire, rt: Runtime) {
    ReachesStream(url, wire) && !HeadersEncodable(StreamHeaders(wire.m.headers, url, rt))
  }

  /**
   * `download_content_via_proxy` up to the construction of the streaming reply. `fetched` is the
   * upstream response, if one was obtained. On the file path `streamed` is that response, still
   * open, and `d` the reply the handler asks for; on every other path `d` is the final decision
   * and the response, if any, is closed.
   */
  method Prepare(url: string, net: Network, rt: Runtime) returns (d: Decision, streamed: Response?, ghost fetched: Response?)
    modifies net
    ensures url == "" ==> net.log == old(net.log)
    ensures url != "" ==> net.log == old(net.log) + [UpstreamRequest(ApiBaseUrl, url)]
    ensures fetched == null <==> url == "" || net.wire.Raise?
    ensures fetched != null ==> fresh(fetched) && net.wire.Answer? && fetched.message == net.wire.m
    ensures streamed != null <==> ReachesStream(url, net.wire)
    ensures streamed != null ==> && streamed == fetched && streamed.closes == 0
                                 && d == Stream(net.wire.m.status, StreamHeaders(net.wire.m.headers, url, rt))
    ensures streamed == null ==> d == Decide(url, net.wire, rt) && (fetched != null ==> fetched.closes == 1)
  {
    streamed, fetched := null, null;
    if url == "" {
      d := Reject(400, UrlRequiredDetail);
      return;
    }
    var got := GetContent(url, net);
    if got.Failure? {
      d := Reject(got.error.status, got.error.detail);
      return;
    }
    var resp := got.value;
    fetched := resp;
    var status := resp.message.status;
    var contentType := Lower(resp.message.Header("content-type", ""));
    if status >= 400 {
      var text := ReadTextAndClose(resp, rt);
      d := ErrorBodyDecision(status, text, rt);
      return;
    }
    if Contains(contentType, "application/json") {
      var data := ParseJsonAndClose(resp, rt);
      d := JsonBodyDecision(status, data, rt);
    } else {
      var headers := BuildStreamHeaders(url, resp.message.headers, rt);
      StreamHeadersSpecUnique(resp.message.headers, SynthesizedDisposition(resp.message.headers, url, rt),
                              headers, StreamHeaders(resp.message.headers, url, rt));
      d, streamed := Stream(status, headers), resp;
    }
  }

  /**
   * `download_content_via_proxy`, corrected: when the reply headers cannot be encoded, the
   * upstream response is closed before the 500. `body` is the response handed to the streaming
   * reply, still open, on the file path.
   */
  method Download(url: string, net: Network, rt: Runtime) returns (d: Decision, body: Response?, ghost fetched: Response?)
    modifies net
    ensures d == Decide(url, net.wire, rt)
    ensures url == "" ==> d == Reject(400, UrlRequiredDetail) && net.log == old(net.log)
    ensures url != "" ==> net.log == old(net.log) + [UpstreamRequest(ApiBaseUrl, url)]
    ensures fetched == null <==> url == "" || net.wire.Raise?
    ensures fetched != null ==> fresh(fetched) && net.wire.Answer? && fetched.message == net.wire.m
    ensures body != null <==> d.Stream?
    ensures body != null ==> body == fetched && body.closes == 0
    ensures fetched != null && body == null ==> fetched.closes == 1
  {
    var streamed;
    d, streamed, fetched := Prepare(url, net, rt);
    body := null;
    if streamed != null {
      d, body := StreamReply(d.status, d.headers, streamed);
    }
  }

  /**
   * `download_content_via_proxy` as written: when the reply headers cannot be encoded, the 500
   * leaves the upstream response open. On every other path it is as `Download`.
   */
  method DownloadAsWritten(url: string, net: Network, rt: Runtime) returns (d: Decision, body: Response?, ghost fetched: Response?)
    modifies net
    ensures d == Decide(url, net.wire, rt)
    ensures url == "" ==> d == Reject(400, UrlRequiredDetail) && net.log == old(net.log)
    ensures url != "" ==> net.log == old(net.log) + [UpstreamRequest(ApiBaseUrl, url)]
    ensures fetched == null <==> url == "" || net.wire.Raise?
    ensures fetched != null ==> fresh(fetched) && net.wire.Answer? && fetched.message == net.wire.m
    ensures body != null <==> d.Stream?
    ensures body != null ==> body == fetched && body.closes == 0
    ensures fetched != null && body == null && !HeadersRefused(url, net.wire, rt) ==> fetched.closes == 1
    ensures HeadersRefused(url, net.wire, rt) ==> d == Reject(500, ServerErrorDetail) && fetched != null && fetched.closes == 0
  {
    var streamed;
    d, streamed, fetched := Prepare(url, net, rt);
    body := null;
    if streamed != null {
      d, body := StreamReplyAsWritten(d.status, d.headers, streamed);
    }
  }

  /** How many chunks reach a client that goes away after `disconnectAfter` of them. */
  function Delivered(total: nat, disconnectAfter: Option<nat>): (n: nat)
    ensures n <= total
    ensures disconnectAfter.Some? ==> n <= disconnectAfter.value
    ensures disconnectAfter.None? ==> n == total
    ensures n == total || (disconnectAfter.Some? && n == disconnectAfter.value)
  {
    match disconnectAfter
    case None => total
    case Some(k) => if k < total then k else total
  }

  /** Whether the client goes away before the stream could report a failure. */
  predicate LeavesEarly(total: nat, disconnectAfter: Option<nat>) {
    disconnectAfter.Some? && disconnectAfter.value <= total
  }

  /**
   * `file_streaming_generator`: relay the chunks in order until they run out or the client goes
   * away, then close. `raised` is the exception the relay ends with, if any.
   */
  method Relay(resp: Response, disconnectAfter: Option<nat>) returns (emitted: seq<Bytes>, raised: Option<string>)
    modifies resp`closes
    ensures resp.closes == old(resp.closes) + 1
    ensures emitted == resp.message.chunks[..Delivered(|resp.message.chunks|, disconnectAfter)]
    ensures raised == if LeavesEarly(|resp.message.chunks|, disconnectAfter) then None else resp.message.fault
    ensures IsPrefix(Flatten(emitted), resp.message.Body())
    ensures disconnectAfter.None? ==> Flatten(emitted) == resp.message.Body()
  {
    var chunks := resp.message.chunks;
    var i := 0;
    emitted := [];
    while i < |chunks| && (disconnectAfter.None? || i < disconnectAfter.value)
      invariant i <= |chunks|
      invariant disconnectAfter.Some? ==> i <= disconnectAfter.value
      invariant emitted == chunks[..i]
    {
      emitted := emitted + [chunks[i]];
      i := i + 1;
    }
    raised := if LeavesEarly(|chunks|, disconnectAfter) then None else resp.message.fault;
    resp.Close();
    FlattenSplit(chunks, i);
    assert chunks[..|chunks|] == chunks;
  }

  /**
   * One request from start to finish, as written: the handler, then, on the file path, the relay
   * the streaming reply drives. `disconnectAfter == Some(k)` is a client that goes away once `k`
   * chunks have been pulled; with `k == 0` the server never starts the generator, so its
   * `finally` never runs and the upstream response stays open. It stays open too when the reply
   * headers cannot be encoded. On every other path it is closed exactly once.
   */
  method ServeAsWritten(url: string, net: Network, rt: Runtime, disconnectAfter: Option<nat>)
    returns (d: Decision, emitted: seq<Bytes>, raised: Option<string>, ghost fetched: Response?)
    modifies net
    ensures d == Decide(url, net.wire, rt)
    ensures url == "" ==> net.log == old(net.log)
    ensures url != "" ==> net.log == old(net.log) + [UpstreamRequest(ApiBaseUrl, url)]
    ensures fetched == null <==> url == "" || net.wire.Raise?
    ensures fetched != null ==> fresh(fetched) && net.wire.Answer? && fetched.message == net.wire.m
    ensures (fetched != null && !(d.Stream? && disconnectAfter == Some(0))
             && !HeadersRefused(url, net.wire, rt)) ==> fetched.closes == 1
    ensures fetched != null && d.Stream? && disconnectAfter == Some(0) ==> fetched.closes == 0
    ensures HeadersRefused(url, net.wire, rt) ==> fetched != null && fetched.closes == 0
    ensures !d.Stream? ==> emitted == [] && raised == None
    ensures d.Stream? ==> net.wire.Answer?
    ensures d.Stream? && net.wire.Answer? ==>
      && emitted == net.wire.m.chunks[..Delivered(|net.wire.m.chunks|, disconnectAfter)]
      && raised == (if LeavesEarly(|net.wire.m.chunks|, disconnectAfter) then None else net.wire.m.fault)
    ensures d.Stream? && disconnectAfter.None? ==> Flatten(emitted) == net.wire.m.Body()
  {
    var body;
    d, body, fetched := DownloadAsWritten(url, net, rt);
    emitted, raised := [], None;
    if body != null && disconnectAfter != Some(0) {
      emitted, raised := Relay(body, disconnectAfter);
    }
  }

  /**
   * One request from start to finish, corrected: when the client goes away before the generator
   * is started, the response handed to the stream is closed there, so the upstream response is
   * closed exactly once on every path.
   */
  method Serve(url: string, net: Network, rt: Runtime, disconnectAfter: Option<nat>)
    returns (d: Decision, emitted: seq<Bytes>, raised: Option<string>, ghost fetched: Response?)
    modifies net
    ensures d == Decide(url, net.wire, rt)
    ensures url == "" ==> net.log == old(net.log)
    ensures url != "" ==> net.log == old(net.log) + [UpstreamRequest(ApiBaseUrl, url)]
    ensures fetched == null <==> url == "" || net.wire.Raise?
    ensures fetched != null ==> fresh(fetched) && net.wire.Answer? && fetched.message == net.wire.m
    ensures fetched != null ==> fetched.closes == 1
    ensures !d.Stream? ==> emitted == [] && raised == None
    ensures d.Stream? ==> net.wire.Answer?
    ensures d.Stream? && net.wire.Answer? ==>
      && emitted == net.wire.m.chunks[..Delivered(|net.wire.m.chunks|, disconnectAfter)]
      && raised == (if LeavesEarly(|net.wire.m.chunks|, disconnectAfter) then None else net.wire.m.fault)
    ensures d.Stream? && disconnectAfter.None? ==> Flatten(emitted) == net.wire.m.Body()
  {
    var body;
    d, body, fetched := Download(url, net, rt);
    emitted, raised := [], None;
    if body != null {
      if disconnectAfter == Some(0) {
        body.Close();
      } else {
        emitted, raised := Relay(body, disconnectAfter);
      }
    }
  }

  // Properties of the handler, stated on its functional description.

  /** A transport failure ends in 504, 503 or 500 by kind, and its detail names the target URL. */
  lemma TransportFailureMapped(url: string, e: RequestException, rt: Runtime)
    requires url != ""
    ensures var d := Decide(url, Raise(e), rt);
      && d.Reject?
      && (d.status == 504 <==> e.isTimeout)
      && (d.status == 503 <==> !e.isTimeout && e.isConnectionError)
      && (d.status == 500 <==> !e.isTimeout && !e.isConnectionError)
      && Contains(d.detail, url)
  {
  }

  /** An upstream error whose text is JSON is passed on unchanged, with the upstream status. */
  lemma UpstreamErrorPassthrough(url: string, m: Message, rt: Runtime, j: Json)
    requires url != "" && m.status >= 400 && m.fault.None?
    requires rt.parse(rt.decode(m.Body())) == Parsed(j) && rt.renderError(j).None?
    ensures Decide(url, Answer(m), rt) == Respond(m.status, j)
  {
  }

  /** An upstream error whose text is not JSON is wrapped, with the upstream status. */
  lemma UpstreamErrorWrapped(url: string, m: Message, rt: Runtime)
    requires url != "" && m.status >= 400 && m.fault.None?
    requires rt.parse(rt.decode(m.Body())).Malformed?
    requires rt.renderError(ErrorWrapper(rt.decode(m.Body()), m.status)).None?
    ensures Decide(url, Answer(m), rt) == Respond(m.status, ErrorWrapper(rt.decode(m.Body()), m.status))
  {
  }

  /** An upstream error whose body cannot be read is a 502. */
  lemma UpstreamErrorUnreadable(url: string, m: Message, rt: Runtime)
    requires url != "" && m.status >= 400 && m.fault.Some?
    ensures Decide(url, Answer(m), rt) == Reject(502, ErrorBodyFailure(m.fault.value))
  {
  }

  /**
   * Below 400 the answer is streamed exactly when its content type does not declare JSON and
   * the outward headers can be encoded.
   */
  lemma JsonOnlyWhenDeclared(url: string, m: Message, rt: Runtime)
    requires url != ""
    ensures var d := Decide(url, Answer(m), rt);
      && (d.Stream? <==> m.status < 400 && !Contains(ContentTypeOf(m), "application/json")
                         && HeadersEncodable(StreamHeaders(m.headers, url, rt)))
      && (m.status >= 400 ==> d == ErrorBodyDecision(m.status, m.Text(rt), rt))
  {
  }

  /** A declared JSON answer that parses is passed on unchanged, with the upstream status. */
  lemma JsonPassthrough(url: string, m: Message, rt: Runtime, j: Json)
    requires url != "" && m.status < 400 && Contains(ContentTypeOf(m), "application/json") && m.fault.None?
    requires rt.parse(rt.decode(m.Body())) == Parsed(j) && rt.renderError(j).None?
    ensures Decide(url, Answer(m), rt) == Respond(m.status, j)
  {
  }

  /** A declared JSON answer that does not decode is a 502; any other failure on that path is a 500. */
  lemma JsonFailures(url: string, m: Message, rt: Runtime)
    requires url != "" && m.status < 400 && Contains(ContentTypeOf(m), "application/json")
    ensures var d := Decide(url, Answer(m), rt);
      && (m.fault.None? && rt.parse(rt.decode(m.Body())).Malformed? ==> d == Reject(502, MalformedJsonDetail))
      && (m.fault.Some? ==> d == Reject(500, JsonServerErrorDetail))
      && (m.fault.None? && rt.parse(rt.decode(m.Body())).Crashed? ==> d == Reject(500, JsonServerErrorDetail))
      && (rt.parse(rt.decode(m.Body())).Parsed? && rt.renderError(rt.parse(rt.decode(m.Body())).value).Some?
          ==> d == Reject(500, JsonServerErrorDetail))
  {
    assert Decide(url, Answer(m), rt) == JsonBodyDecision(m.status, m.Json(rt), rt);
  }

  /**
   * Every reply to an upstream answer carries the upstream status, except the failures of
   * reading or decoding, which are 502 or 500.
   */
  lemma StatusMirrored(url: string, m: Message, rt: Runtime)
    requires url != ""
    ensures var d := Decide(url, Answer(m), rt);
      && (d.Respond? || d.Stream? ==> d.status == m.status)
      && (d.Reject? ==> d.status == 502 || d.status == 500)
  {
  }

  /**
   * On the file path the outward headers are exactly the copied ones and the disposition, or,
   * when they cannot be encoded, the reply is the framework's 500.
   */
  lemma StreamHeadersCopied(url: string, m: Message, rt: Runtime)
    requires url != "" && m.status < 400 && !Contains(ContentTypeOf(m), "application/json")
    ensures var d := Decide(url, Answer(m), rt);
      && (d.Stream? || d == Reject(500, ServerErrorDetail))
      && (d.Stream? ==> StreamHeadersSpec(m.headers, SynthesizedDisposition(m.headers, url, rt), d.headers))
  {
  }

  /**
   * The upstream's own headers can always be encoded (they were decoded as Latin-1), so an
   * answer that brings its own Content-Disposition is always streamed.
   */
  lemma UpstreamDispositionStreamed(url: string, m: Message, rt: Runtime)
    requires url != "" && m.status < 400 && !Contains(ContentTypeOf(m), "application/json")
    requires "content-disposition" in m.headers
    ensures Decide(url, Answer(m), rt) == Stream(m.status, StreamHeaders(m.headers, url, rt))
  {
    var h := StreamHeaders(m.headers, url, rt);
    EncodableIff(m.headers, SynthesizedDisposition(m.headers, url, rt), h);
    assert Decide(url, Answer(m), rt) == StreamDecision(m.status, h);
  }

  /**
   * Headers that meet the specification can be encoded exactly when the upstream supplied the
   * disposition or the synthesised one is Latin-1: every other name and value is.
   */
  lemma EncodableIff(up: HeaderMap, disposition: string, h: map<string, string>)
    requires StreamHeadersSpec(up, disposition, h)
    ensures HeadersEncodable(h) <==> "content-disposition" in up || Latin1(disposition)
  {
    HeaderNamesLatin1();
    if "content-disposition" in up || Latin1(disposition) {
      forall k | k in h
        ensures Latin1(k) && Latin1(h[k])
      {
        if k == "Content-Type" {
          assert h[k] == up["content-type"];
        } else if k == "Content-Disposition" {
        } else {
          assert k == "Content-Length" && h[k] == up["content-length"];
        }
      }
    } else {
      assert "Content-Disposition" in h && !Latin1(h["Content-Disposition"]);
    }
  }

  /** The outward header names are ASCII. */
  lemma HeaderNamesLatin1()
    ensures Latin1("Content-Type") && Latin1("Content-Disposition") && Latin1("Content-Length")
  {
  }

  /** A synthesised name made of `[A-Za-z0-9._-]` only always goes out. */
  lemma PortableNameStreamed(url: string, m: Message, rt: Runtime)
    requires url != "" && m.status < 400 && !Contains(ContentTypeOf(m), "application/json")
    requires var name := SynthesizedFilename(url, OptionalHeader(m.headers, "content-type"), rt);
      forall i :: 0 <= i < |name| ==> PortableChar(name[i])
    ensures Decide(url, Answer(m), rt) == Stream(m.status, StreamHeaders(m.headers, url, rt))
  {
    var name := SynthesizedFilename(url, OptionalHeader(m.headers, "content-type"), rt);
    AttachmentLatin1(name);
    HeaderNamesLatin1();
    assert HeadersEncodable(StreamHeaders(m.headers, url, rt));
  }

  /** The Content-Disposition of a name made of `[A-Za-z0-9._-]` is Latin-1. */
  lemma AttachmentLatin1(name: string)
    requires forall i :: 0 <= i < |name| ==> PortableChar(name[i])
    ensures Latin1(Attachment(name))
  {
    var pre := "attachment; filename=\"";
    assert Latin1(pre) && Latin1("\"");
    assert Attachment(name) == pre + name + "\"";
  }

  /** The runtime of the counter-example: the URL path is `/\U{65E5}` and the guessed extension `.bin`. */
  function ExampleRuntime(): Runtime {
    Runtime(b => "", t => Malformed(""), j => None, u => Some("/\U{65E5}"), c => Some(".bin"), c => true)
  }

  /** The name before sanitising for the path `/\U{65E5}` and the extension `.bin`. */
  lemma ExampleCandidate()
    ensures Candidate(Basename("/\U{65E5}"), Some(".bin")) == "\U{65E5}.bin"
  {
    var n := "\U{65E5}";
    ExampleStem();
    assert Lower(n) == n;
    assert !EndsWith(n, Lower(".bin"));
  }

  /** The last segment of `/\U{65E5}` is the letter, and it is its own stem. */
  lemma ExampleStem()
    ensures Basename("/\U{65E5}") == "\U{65E5}" && Stem("\U{65E5}") == "\U{65E5}"
  {
    var n := "\U{65E5}";
    var path := "/\U{65E5}";
    assert path[..1] == "/" && Basename(path[..1]) == [];
    assert Basename(path) == [path[1]] == n;
    assert CutAt(n[1..], '?') == [];
    assert CutAt(n, '?') == n;
    assert CutAt(n[1..], '#') == [];
  }

  /** `\U{65E5}.bin` passes the filter and the strip unchanged when the letter counts as alphanumeric. */
  lemma ExampleFinish(nonAsciiAlnum: char -> bool)
    requires nonAsciiAlnum('\U{65E5}')
    ensures Finish("\U{65E5}.bin", nonAsciiAlnum) == "\U{65E5}.bin"
  {
    var raw := "\U{65E5}.bin";
    assert forall i :: 0 <= i < |raw| ==> Kept(raw[i], nonAsciiAlnum);
    assert !IsSpace(raw[0]) && !IsSpace(raw[|raw| - 1]);
  }

  /** The name synthesised for `https://x.test/\U{65E5}`: the letter passes `isalnum` and is kept. */
  lemma ExampleFilename()
    ensures SynthesizedFilename("https://x.test/\U{65E5}", None, ExampleRuntime()) == "\U{65E5}.bin"
  {
    var rt := ExampleRuntime();
    assert rt.urlPath("https://x.test/\U{65E5}") == Some("/\U{65E5}");
    assert rt.guessExtension(DefaultContentType) == Some(".bin");
    ExampleCandidate();
    ExampleFinish(rt.nonAsciiAlnum);
  }

  /** The Content-Disposition synthesised for `https://x.test/\U{65E5}` is not Latin-1. */
  lemma ExampleDisposition()
    ensures !Latin1(SynthesizedDisposition(map[], "https://x.test/\U{65E5}", ExampleRuntime()))
  {
    ExampleFilename();
    var name := "\U{65E5}.bin";
    assert OptionalHeader(map[], "content-type") == None;
    AttachmentQuotes(name);
    assert Attachment(name)[22] == name[0];
  }

  /** The name sits in the Content-Disposition from position 22 on, after `attachment; filename="`. */
  lemma AttachmentQuotes(name: string)
    ensures |Attachment(name)| == |name| + 23
    ensures forall i :: 0 <= i < |name| ==> Attachment(name)[22 + i] == name[i]
  {
    var pre := "attachment; filename=\"";
    assert |pre| == 22;
    assert Attachment(name) == pre + name + "\"";
  }

  /**
   * A target URL whose last path segment is a letter outside Latin-1 (here U+65E5) passes the
   * `isalnum` filter, so the synthesised Content-Disposition cannot be encoded and the reply is
   * a 500; `StreamReplyAsWritten` then leaves the upstream response open.
   */
  lemma NonLatin1NameBreaksReply()
    ensures var rt := ExampleRuntime();
      var url := "https://x.test/\U{65E5}";
      var m := Message(200, map[], [], None);
      && SynthesizedFilename(url, None, rt) == "\U{65E5}.bin"
      && !HeadersEncodable(StreamHeaders(m.headers, url, rt))
      && Decide(url, Answer(m), rt) == Reject(500, ServerErrorDetail)
  {
    var rt := ExampleRuntime();
    var url := "https://x.test/\U{65E5}";
    var m := Message(200, map[], [], None);
    ExampleFilename();
    ExampleDisposition();
    var disposition := SynthesizedDisposition(m.headers, url, rt);
    var h := StreamHeaders(m.headers, url, rt);
    EncodableIff(m.headers, disposition, h);
    assert ContentTypeOf(m) == "";
    assert Decide(url, Answer(m), rt) == StreamDecision(200, h);
  }
}
