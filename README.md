# TeleSocial proxy handler, modelled in Dafny

The repository is one FastAPI endpoint, `GET /download/?url=<target>`. It forwards the target URL
to a fixed upstream extraction service (`https://tele-social.vercel.app/down?url=<target>`) and
relays that service's answer in one of three ways:

- an upstream error (status 400 or more) is passed on as JSON, parsed or wrapped;
- a declared JSON answer is passed on parsed;
- anything else is streamed back as a file download, with a Content-Disposition synthesised from
  the target URL when the upstream gives none.

Transport failures become 504, 503 or 500. The upstream response is meant to be closed once on
every path: by the read-and-close helpers on the JSON paths, and by the streaming generator's
`finally` on the file path. Two paths miss that close:

- A client that goes away before the first chunk is pulled. With a server that cancels the reply
  on disconnect before iterating, the generator is never started, so its `finally` never runs.
  `Proxy.ServeAsWritten` states this case, and the corrected `Proxy.Serve` closes the response there.
- A synthesised file name whose letters lie outside Latin-1. The reply's headers cannot be encoded,
  so building the streaming reply raises. The client gets the framework's 500 and the generator
  never starts. This is the first finding below. `Proxy.DownloadAsWritten` and `Proxy.ServeAsWritten`
  state this case; the corrected `Proxy.Download` closes the response before answering 500.

This project models that handler:

- `Transport` models the single upstream attempt and how an exception becomes a status.
- `Filenames` models how the download name is derived.
- `Proxy` models the classification, the outward header map, the two read-and-close helpers, the
  streaming relay and the whole request.

Supporting modules:

- `Upstream` holds the upstream message, the `Response` object (a ghost counter `closes` counts calls
  of `close()`) and the network (a ghost `log` records each request sent).
- `Library` holds the values exchanged with the libraries and the libraries themselves, as oracles.
  Those oracles are `Runtime`: the text decoding of `resp.text`, `json.loads`, JSON rendering,
  `urlparse(...).path`, `mimetypes.guess_extension` and `str.isalnum` outside ASCII.
- `Strings` holds the few Python string operations used: `in`, `endswith`, `lower`, `strip`.

The handler is given twice:

- as methods that follow the source step by step, with its effects (the request log and the closes);
- as a function `Proxy.Decide` of the target URL, the upstream's behaviour (`Wire`) and the libraries.

`Proxy.Download`, `Proxy.DownloadAsWritten`, `Proxy.Serve` and `Proxy.ServeAsWritten` are proved to compute `Decide`. The properties of the handler
are lemmas about `Decide` and about the pieces it is built from.

Where the behaviour the endpoint promises and the code differ, the model follows the code:

- A missing `url` parameter is refused by FastAPI's own validation (422) before the handler runs.
  Only an empty `url` reaches the 400 of main.py:78-79, and that is what is modelled.
- The sanitiser keeps whatever `str.isalnum` accepts, which includes non-ASCII letters and digits.
  A download name restricted to `[A-Za-z0-9._-]` therefore holds only for its ASCII characters, and
  `Filenames.FilenameWellFormed` proves exactly that.
- Building a `JSONResponse` can itself raise (the renderer refuses NaN and infinities). That happens
  inside the `try` blocks, so on the error path it ends in 502 and on the JSON path in 500. The
  model carries this through the `renderError` oracle.
- Response header names are held lower-cased and header values as Latin-1 text, as requests
  stores them. `Upstream.HeaderMap` is that type.

## Model

| member | source | states |
|---|---|---|
| `Transport.KindOf` | main.py:37-42 | the first matching `except` clause decides: a timeout is `Timeout` even if it is also a connection error; otherwise a connection error is `ConnectionError`; everything else is the generic request error (each direction an iff) |
| `Transport.Detail` | main.py:38-42 | every transport detail message contains the target URL |
| `Transport.StatusOf` | main.py:49-55 | a timeout is exactly the 504, a connection error exactly the 503, and any other request exception exactly the 500 |
| `Transport.TransportError` | main.py:37-55 | Timeout gives 504, ConnectionError (not timeout) gives 503, any other request exception gives 500, each as an iff, and the detail names the target URL |
| `Transport.FetchSync` | main.py:31-42 | exactly one request `base?url=target` is logged; an exception becomes a tagged result of its kind and detail; an answer becomes a fresh, unclosed response, tagged error_upstream exactly when the status is 400 or more |
| `Transport.GetContent` | main.py:44-56 | one request is logged; a transport exception becomes the `TransportError` of the target; an answer of any status is handed on as a fresh, unclosed response |
| `Strings.ContainsInfix` | main.py:38-42 | a string occurs in any string formatted around it (why each detail names its URL) |
| `Strings.Lower` | main.py:83 | lower-casing keeps the length, maps each character by the ASCII case mapping in place, and leaves no ASCII capital |
| `Strings.LowerAppend` | main.py:125 | lower-casing distributes over concatenation |
| `Strings.LowerFixed` | main.py:112-136 | a name is its own lower-casing exactly when it has no ASCII capital, which is how the lower-cased header names the handler looks up are stored |
| `Upstream.LowerCasedNames` | main.py:112-136 | every header name stored in the upstream header map is its own lower-casing |
| `Strings.Strip` | main.py:129 | `strip()` returns the input less a leading run and a trailing run that are all whitespace, and a non-empty result neither begins nor ends with whitespace |
| `Strings.StripUnchanged` | main.py:129 | a string that neither begins nor ends with whitespace is returned as it is by `strip()` |
| `Strings.StripLeading` | main.py:129 | the result is a suffix of the input that starts with no whitespace, and every dropped character was whitespace |
| `Strings.StripTrailing` | main.py:129 | the result is a prefix of the input that ends with no whitespace, and every dropped character was whitespace |
| `Strings.StripKeeps` | main.py:129 | stripping keeps any property every input character has (it returns a contiguous piece of the input) |
| `Upstream.FlattenAppend` | main.py:140-141 | the bytes of two runs of chunks are the bytes of each, concatenated |
| `Upstream.FlattenSplit` | main.py:140-141 | cutting the chunk sequence anywhere cuts the body into the relayed prefix and the rest |
| `Upstream.Message.Text` | main.py:67 | `resp.text` raises exactly when reading the body fails |
| `Upstream.Message.Json` | main.py:60 | when reading `resp.text` fails, `resp.json()` fails with that same message, not as a decoding error; otherwise it is the parse of exactly that text |
| `Upstream.Response.Close` | main.py:63 | each `close()` adds exactly one to the close count |
| `Upstream.Network.Get` | main.py:33 | the request is logged; a transport failure is raised as is; an answer comes back as a fresh response holding it, not yet closed |
| `Filenames.Basename` | main.py:120 | the result has no `/`, is a suffix of the path, and is preceded by `/` whenever it is shorter than the path |
| `Filenames.CutAt` | main.py:123 | `split(sep)[0]` is a prefix without `sep`, cut exactly at the first `sep` |
| `Filenames.Stem` | main.py:123 | the stem contains no `?` and no `#`; it is the prefix of the segment up to its first `?` or `#` |
| `Filenames.Candidate` | main.py:121-128 | an empty last path segment gives `downloaded_file`; otherwise the name before sanitising begins with the stem |
| `Filenames.Sanitize` | main.py:129 | every character of the result is alphanumeric or one of `._-`, and the result is no longer than the input |
| `Filenames.SanitizeCounts` | main.py:129 | every kept character appears in the result as often as in the input, and no other character appears |
| `Filenames.SanitizeIdentity` | main.py:129 | a name made only of kept characters comes through unchanged |
| `Filenames.SanitizeIdempotent` | main.py:129 | sanitising twice is the same as sanitising once |
| `Filenames.SanitizeAppend` | main.py:129 | the filter works character by character in order: sanitising a concatenation concatenates the sanitised parts, and one character is kept exactly when it is alphanumeric or one of `._-` |
| `Filenames.Finish` | main.py:129-130 | after sanitising, stripping and falling back, the name is non-empty and every character is alphanumeric or one of `._-`; nothing kept gives `downloaded_file`; whenever the sanitised name is non-empty with no whitespace at either end it is the name (so `a!b` gives `ab`); a clean name, and in particular any non-empty `[A-Za-z0-9._-]` name, comes through unchanged |
| `Filenames.CleanNameSurvives` | main.py:129 | a non-empty `[A-Za-z0-9._-]` name is clean; a clean name comes through sanitising and stripping unchanged; a sanitised name with no whitespace at either end survives stripping; what stripping leaves holds only kept characters |
| `Filenames.FinishFallback` | main.py:121 | `downloaded_file` passes through sanitising and stripping unchanged |
| `Filenames.CandidateShape` | main.py:122-128 | the name before sanitising is the stem or the stem plus the guessed extension; with a non-empty guess it ends with that extension (ignoring case), and it is the bare stem whenever the stem already ended with it |
| `Filenames.FilenameWellFormed` | main.py:118-133 | the synthesised name is never empty; each character is alphanumeric or `._-`; its ASCII characters are in `[A-Za-z0-9._-]`; an unparsable URL or an empty last path segment gives `downloaded_file` |
| `Filenames.SynthesizedFilename` | main.py:118-133 | the download name is never empty and every character is alphanumeric or one of `._-` |
| `Filenames.CleanCandidateOffered` | main.py:122-130 | whenever sanitising leaves a name with no whitespace at either end, the offered name is the filtered stem plus the filtered extension when the extension is appended and the filtered stem otherwise; a non-empty `[A-Za-z0-9._-]` candidate is offered as it is |
| `Filenames.SynthesizeDisposition` | main.py:118-133 | the step-by-step derivation yields `attachment; filename="<name>"` for the synthesised name, including the fallback when URL parsing raises |
| `Proxy.AttachmentQuotes` | main.py:131 | the Content-Disposition is the name between `attachment; filename="` and a closing quote |
| `Proxy.BranchOf` | main.py:85-110 | the error path is taken iff status >= 400; the JSON path iff status < 400 and the lower-cased content type contains `application/json`; the stream path otherwise |
| `Proxy.ErrorWrapper` | main.py:93 | the wrapper is an object of three members: `error` is `"Upstream API error"`, `details` the upstream text and `upstream_status_code` the upstream status |
| `Proxy.ErrorBodyDecision` | main.py:86-98 | an upstream error ends in a JSON reply with the upstream status, or in a 502. An unreadable body is a 502 with the read error's text. A JSON reply carries the parsed body or, when the text is not JSON, the `{error, details, upstream_status_code}` wrapper |
| `Proxy.JsonBodyDecision` | main.py:101-109 | a JSON reply carries the parsed body and the upstream status; a decoding failure is exactly the 502 with the malformed-JSON detail; every other rejection, a failed read or a reply that does not render, is exactly the 500 with the server-error detail |
| `Proxy.StreamHeadersSpecUnique` | main.py:111-136 | the header rules determine the outward header map uniquely |
| `Proxy.StreamHeaders` | main.py:111-136 | Content-Type and Content-Length are copied verbatim when present and absent otherwise; Content-Disposition is always there, copied or synthesised; no other header |
| `Proxy.BuildStreamHeaders` | main.py:111-136 | the header map filled key by key meets those same rules, with the disposition synthesised from the copied Content-Type |
| `Proxy.StreamDecision` | main.py:145-149 | the stream reply is built exactly when every header name and value is Latin-1, and is otherwise the framework's 500 |
| `Proxy.EncodableIff` | main.py:111-149 | the outward headers can be encoded exactly when the upstream supplied the Content-Disposition or the synthesised one is Latin-1 |
| `Proxy.Decide` | main.py:78-149 | an empty URL is the 400; a transport failure is 504, 503 or 500; a JSON or stream reply answers an upstream answer with its status, and a JSON reply is one that renders; a stream reply comes only below 400 for a non-JSON content type, with the header map of the rules and encodable headers; every rejection is 400, 500, 502, 503 or 504 |
| `Proxy.StreamReply` | main.py:145-149 | corrected reply: the stream keeps the response open for the generator; when the headers cannot be encoded the response is closed once and the reply is 500 |
| `Proxy.StreamReplyAsWritten` | main.py:145-149 | reply as written: where the headers cannot be encoded the reply is 500 and no generator is handed the response, which nothing has closed |
| `Proxy.ReadTextAndClose` | main.py:65-70 | the response is closed exactly once more, whether or not reading raised, and the result is `resp.text` or its exception |
| `Proxy.ParseJsonAndClose` | main.py:58-63 | the response is closed exactly once more, whether or not parsing raised, and the result is `resp.json()` or its exception |
| `Proxy.Prepare` | main.py:73-136 | the handler up to the streaming reply: an empty URL gives 400 and sends nothing upstream, otherwise exactly one request goes upstream; exactly the answers below 400 without a JSON content type reach the stream, still open, with the header map of the rules; every other path ends in `Decide` of the request with the fetched response closed exactly once |
| `Proxy.Download` | main.py:73-149 | corrected handler: the reply is `Decide` of the request. An empty URL gives 400 and sends nothing upstream; otherwise exactly one request goes upstream. A response handed to the stream is still open; on every other path, including a stream reply that cannot be built, the fetched response is closed exactly once |
| `Proxy.DownloadAsWritten` | main.py:73-149 | handler as written: the same reply, request and stream hand-over as the corrected handler, and the fetched response is closed exactly once on the other paths, except where the stream reply's headers cannot be encoded: that reply is the framework's 500 and the response stays open |
| `Proxy.Delivered` | main.py:140-141 | a client leaving after k chunks receives no more than k and no more than all chunks, and all of them if it stays; the number received is either all of them or exactly k |
| `Proxy.Relay` | main.py:138-143 | the relayed chunks are the upstream's, in order, up to a disconnect; their bytes are a prefix of the body, and the whole body when the client stays; a read failure surfaces only when the client stays; the response is closed exactly once |
| `Proxy.Serve` | main.py:138-149 | corrected request: the reply is `Decide` of the request, the fetched response is closed exactly once on every path, including a client that goes away before the first chunk. Non-stream replies relay nothing. The streamed bytes are the upstream body, in order |
| `Proxy.ServeAsWritten` | main.py:138-149 | request as written: the same reply and relay, and the fetched response is closed exactly once, except on two paths where it stays open: the client goes away before the first chunk, so the generator never starts; or the stream reply's headers cannot be encoded |
| `Proxy.TransportFailureMapped` | main.py:49-55 | a transport failure ends in 504, 503 or 500 by kind (iff), with a detail naming the target |
| `Proxy.UpstreamErrorPassthrough` | main.py:85-90 | an upstream error whose text parses as JSON and renders is returned unchanged with the upstream status |
| `Proxy.UpstreamErrorWrapped` | main.py:91-95 | an upstream error whose text is not JSON is returned as `{error: "Upstream API error", details: <text>, upstream_status_code: <status>}` with the upstream status |
| `Proxy.UpstreamErrorUnreadable` | main.py:96-98 | an upstream error whose body cannot be read is a 502 |
| `Proxy.JsonOnlyWhenDeclared` | main.py:83-149 | below 400 the answer is streamed iff the lower-cased content type does not contain `application/json` and the outward headers can be encoded; at 400 or more the error path decides |
| `Proxy.JsonPassthrough` | main.py:100-103 | a declared JSON answer that parses and renders is returned unchanged with the upstream status |
| `Proxy.JsonFailures` | main.py:104-109 | on the JSON path a decoding error is 502; a failed read, a non-decoding parse failure and a parsed body that does not render are each the 500 with the server-error detail |
| `Proxy.StatusMirrored` | main.py:85-149 | every JSON or stream reply to an upstream answer carries the upstream status; the only other outcomes are 502 and 500 |
| `Proxy.StreamHeadersCopied` | main.py:110-149 | a successful non-JSON answer is streamed with exactly the copied headers and the disposition, or, when those cannot be encoded, answered with the framework's 500 |
| `Proxy.UpstreamDispositionStreamed` | main.py:115-116 | an answer bringing its own Content-Disposition is always streamed, since the upstream's header values are Latin-1 |
| `Proxy.PortableNameStreamed` | main.py:129-149 | a synthesised name made of `[A-Za-z0-9._-]` only is always streamed |
| `Proxy.NonLatin1NameBreaksReply` | main.py:129-149 | for `https://x.test/` followed by U+65E5 the name is U+65E5 then `.bin`, the headers cannot be encoded, and the reply is 500 |

## Left out

- FastAPI application set-up, CORS middleware and route declaration (main.py:14-28, main.py:72-77): framework configuration.
- The network call itself, its 90-second timeout and the chunk size 64 KiB passed to `iter_content` (main.py:33, main.py:138-140). The upstream's behaviour is an input (`Wire`), and the chunk boundaries come with the message.
- `run_in_threadpool`, `async`/`await` and scheduling. A client disconnect is modelled only as the consumer going away once some number of chunks has been pulled; with none pulled, the relay never starts.
- The internals of `json.loads`/`resp.json()`, the text decoding of `resp.text`, `urllib.parse.urlparse`, `mimetypes.guess_extension`, Unicode `str.isalnum` and JSON rendering are oracles. The JSON path parses through the same decoding as `resp.text`; the JSON-specific encoding guess of `resp.json()` is not modelled.
- `Strings.Lower`: only ASCII letters are case-mapped. Python's full Unicode `str.lower` is not modelled; it matters only for non-ASCII characters of a content type or of a stem.
- `os.path.basename` is modelled for POSIX paths only.
- The order of the outward headers (a Python dict keeps insertion order; a Dafny map does not).
- The framework's header encoding is modelled only as the Latin-1 test on every name and value when the stream reply is built. The framework's other header handling is not part of this model.
- A client that goes away after k > 0 chunks leaves the generator suspended; Python closes it, and so the upstream response, only when the generator is finalised. The model counts that close at the disconnect.
- Whether the streamed byte count matches an upstream Content-Length: the value is copied, never checked, by the handler.
- `print` logging (main.py:97, main.py:105, main.py:108) and the commented-out local start-up block (main.py:151-164).

## Findings

| source | as written | input that shows it | evidently intended | confidence | as-written member | corrected member |
|---|---|---|---|---|---|---|
| main.py:129-149 | the name filter keeps every character `str.isalnum` accepts, and the name goes into a header that must be Latin-1; building the stream reply raises, the client gets 500, and the generator whose `finally` closes the upstream response never starts, so the response stays open | `GET /download/?url=https://x.test/` followed by U+65E5, answered upstream with a 200 that has no Content-Disposition | the upstream response is closed on every path, as the `finally` at main.py:142-143 shows is meant. The correction chosen is to close it before the 500 goes out: it changes no reply and keeps the name filter as written. A filter restricted to ASCII would stream the reply instead, but it would also change which names are offered for every non-ASCII letter the filter now keeps. | medium, not executed | `Proxy.StreamReplyAsWritten`, `Proxy.DownloadAsWritten`, `Proxy.NonLatin1NameBreaksReply` | `Proxy.StreamReply`, `Proxy.Download` |
| main.py:138-149 | the only close on the file path is the generator's `finally`, so a response whose generator is never started is never closed | a client that disconnects after the response head is sent and before the first chunk is pulled, under a server that cancels the streaming task on disconnect before it iterates the body | the upstream response is closed on every path, a client disconnect included | low, not executed; it depends on the framework's disconnect handling, which varies between versions | `Proxy.ServeAsWritten` | `Proxy.Serve` |
