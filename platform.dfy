/**
 * What the data layer gets from the browser and from GitHub, as oracles:
 * the network (`fetch` and `response.json()`), base64 decoding (`atob`) and
 * `JSON.parse`. The model never computes these; it only says what the code
 * does with each possible answer.
 */
module Platform {
  import opened Wrappers

  /** How one authenticated `fetch` of a GitHub REST URL settles, as the code observes it. */
  datatype Response<T> =
    | Ok(body: T)           // `response.ok`, and `response.json()` produced the expected field
    | NotOk(status: int)    // a status outside 200-299 (404 and any other)
    | Rejected              // `fetch` rejected (network failure) or reading the body threw

  /** One element of a contents listing: `{name, path, type}`; `type` is "dir", "file", "symlink" or "submodule". */
  datatype Entry = Entry(name: string, path: string, kind: string)

  /** A member of a parsed JSON object; `shown` is what a template literal renders for a non-string value. */
  datatype Value = JString(text: string) | JOther(shown: string)

  /** The members of a parsed JSON object. */
  type Fields = map<string, Value>

  /** What `JSON.parse` can return for a record document: an object, or the literal `null`. */
  datatype Parsed = JObject(fields: Fields) | JNull

  /**
   * The oracles. Each endpoint is keyed by the request URL and the
   * `Authorization` header, so what GitHub answers may depend on the token.
   */
  datatype Host = Host(
    repoMeta: (string, string) -> Response<int>,         // GET /repos/{owner}/{repo}: the `size` member
    fileBody: (string, string) -> Response<string>,      // GET /repos/.../contents/{path}: the base64 `content` member
    listing: (string, string) -> Response<seq<Entry>>,   // GET /repos/.../contents/{path} of a folder
    atob: string -> Option<string>,                      // None: `atob` throws
    parse: string -> Option<Parsed>)                     // None: `JSON.parse` throws
}
