/**
 * The values the handler exchanges with the libraries it calls (requests, json, urllib.parse,
 * mimetypes, Unicode character classes, the JSON response renderer), and those calls as oracles.
 */
module Library {
  import opened Wrappers

  newtype byte = b: int | 0 <= b < 256
  type Bytes = seq<byte>

  /** A JSON value as `json.loads` produces it and `JSONResponse` renders it. */
  datatype Json =
    | Null
    | Bool(b: bool)
    | Int(i: int)
    | Float(r: real)
    | Str(s: string)
    | Arr(items: seq<Json>)
    | Obj(members: seq<(string, Json)>)

  /**
   * What a JSON decoding call does: return a value, raise `JSONDecodeError` (`Malformed`),
   * or raise some other exception (`Crashed`, e.g. a recursion error on deeply nested input).
   */
  datatype ParseResult = Parsed(value: Json) | Malformed(msg: string) | Crashed(msg: string)

  /**
   * The foreign calls, as total functions supplied by the caller of the model:
   * - `decode`: the text `resp.text` decodes from the body bytes;
   * - `parse`: `json.loads` (and the parse inside `resp.json()`);
   * - `renderError`: `Some(str(e))` when building a `JSONResponse` of the value raises
   *   (it refuses NaN and infinities), `None` when it succeeds;
   * - `urlPath`: `urllib.parse.urlparse(url).path`, `None` when `urlparse` raises;
   * - `guessExtension`: `mimetypes.guess_extension`;
   * - `nonAsciiAlnum`: `c.isalnum()` for characters outside ASCII.
   */
  datatype Runtime = Runtime(
    decode: Bytes -> string,
    parse: string -> ParseResult,
    renderError: Json -> Option<string>,
    urlPath: string -> Option<string>,
    guessExtension: string -> Option<string>,
    nonAsciiAlnum: char -> bool)

  /** `d[key]` on a JSON object given by its members: the value of the first member named `key`. */
  function Lookup(members: seq<(string, Json)>, key: string): (v: Option<Json>)
    ensures v.Some? <==> exists i :: 0 <= i < |members| && members[i].0 == key
    ensures v.Some? ==> exists i :: 0 <= i < |members| && members[i] == (key, v.value)
    decreases |members|
  {
    if members == [] then None
    else if members[0].0 == key then Some(members[0].1)
    else
      var rest := Lookup(members[1..], key);
      assert forall i :: 1 <= i < |members| ==> members[i] == members[1..][i - 1];
      rest
  }
}
