/**
 * The upstream side of one request: the HTTP message the upstream service answers with,
 * the `requests.Response` object that holds it (whose closes are counted), and the network
 * that `requests.get` talks to (whose requests are logged).
 */
module Upstream {
  import opened Wrappers
  import opened Strings
  import opened Library

  /** The body bytes delivered in `chunks`, in order. */
  function Flatten(chunks: seq<Bytes>): (body: Bytes)
    ensures chunks == [] ==> body == []
  {
    if chunks == [] then [] else chunks[0] + Flatten(chunks[1..])
  }

  lemma {:induction false} FlattenAppend(a: seq<Bytes>, b: seq<Bytes>)
    ensures Flatten(a + b) == Flatten(a) + Flatten(b)
  {
    if a == [] {
      assert a + b == b;
    } else {
      assert (a + b)[0] == a[0];
      assert (a + b)[1..] == a[1..] + b;
      FlattenAppend(a[1..], b);
    }
  }

  /** Cutting the chunk sequence anywhere cuts the body into a prefix and the rest. */
  lemma FlattenSplit(chunks: seq<Bytes>, i: nat)
    requires i <= |chunks|
    ensures Flatten(chunks[..i]) + Flatten(chunks[i..]) == Flatten(chunks)
  {
    assert chunks == chunks[..i] + chunks[i..];
    FlattenAppend(chunks[..i], chunks[i..]);
  }

  /**
   * Response headers as requests holds them: its case-insensitive dictionary stores each header
   * under its lower-cased name (a name with no capital, `LowerCasedNames`), so a lookup by a lower-case name is the source's case-insensitive
   * lookup; the values are the Latin-1 decoding of the header bytes.
   */
  type HeaderMap = h: map<string, string> | forall k | k in h :: NoUpper(k) && Latin1(h[k])

  /**
   * Every stored name is its own lower-casing, so looking a header up by its lower-case name finds
   * it whatever case the upstream sent it in.
   */
  lemma LowerCasedNames(h: HeaderMap)
    ensures forall k | k in h :: Lower(k) == k
  {
    forall k | k in h
      ensures Lower(k) == k
    {
      LowerFixed(k);
    }
  }

  /**
   * An upstream answer. `chunks` is the body as the transport delivers it; when
   * `fault` is `Some(m)`, reading on after the last chunk raises an exception whose text is `m`.
   */
  datatype Message = Message(status: int, headers: HeaderMap, chunks: seq<Bytes>, fault: Option<string>) {

    function Body(): Bytes {
      Flatten(chunks)
    }

    /** `headers.get(name, default)` */
    function Header(name: string, default: string): string {
      if name in headers then headers[name] else default
    }

    /** `resp.text`: the decoded body, or the exception that reading the body raised. */
    function Text(rt: Runtime): (r: Result<string, string>)
      ensures r.Failure? <==> fault.Some?
    {
      match fault
      case Some(m) => Failure(m)
      case None => Success(rt.decode(Body()))
    }

    /**
     * `resp.json()`: the body read and parsed. A failed read is an exception other than a
     * decoding error, so it is reported as `Crashed`.
     */
    function Json(rt: Runtime): (r: ParseResult)
      ensures Text(rt).Failure? ==> r == Crashed(Text(rt).error)
      ensures Text(rt).Success? ==> r == rt.parse(Text(rt).value)
    {
      match fault
      case Some(m) => Crashed(m)
      case None => rt.parse(rt.decode(Body()))
    }
  }

  /** A `requests.Response` for one upstream answer; `closes` counts the calls of `close()`. */
  class Response {
    const message: Message
    ghost var closes: nat

    constructor (message: Message)
      ensures this.message == message && closes == 0
    {
      this.message := message;
      closes := 0;
    }

    /** `resp.close()` */
    method Close()
      modifies this`closes
      ensures closes == old(closes) + 1
    {
      closes := closes + 1;
    }
  }

  /** A transport-level exception: which of requests' exception classes it is an instance of. */
  datatype RequestException = RequestException(isTimeout: bool, isConnectionError: bool, message: string)

  /** What the upstream service does with the next request: answer it, or fail at transport level. */
  datatype Wire = Answer(m: Message) | Raise(e: RequestException)

  /** A `GET base?url=<url>` sent upstream. */
  datatype UpstreamRequest = UpstreamRequest(base: string, url: string)

  /** What one `requests.get` call gives back to the caller. */
  datatype Attempt = Responded(resp: Response) | Raised(e: RequestException)

  /** The network as seen from the handler: `log` records every request sent. */
  class Network {
    const wire: Wire
    ghost var log: seq<UpstreamRequest>

    constructor (wire: Wire)
      ensures this.wire == wire && log == []
    {
      this.wire := wire;
      log := [];
    }

    /** `requests.get(base, params={'url': url}, stream=True)`: the response object is new and not closed. */
    method Get(base: string, url: string) returns (a: Attempt)
      modifies this`log
      ensures log == old(log) + [UpstreamRequest(base, url)]
      ensures wire.Raise? ==> a == Raised(wire.e)
      ensures wire.Answer? ==> a.Responded? && fresh(a.resp) && a.resp.message == wire.m && a.resp.closes == 0
    {
      log := log + [UpstreamRequest(base, url)];
      match wire
      case Raise(e) =>
        a := Raised(e);
      case Answer(m) =>
        var resp := new Response(m);
        a := Responded(resp);
    }
  }
}
