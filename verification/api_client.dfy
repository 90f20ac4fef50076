/** The browser's API client (webui/src/api/client.ts): URL construction under `/api/v1`, request
    headers, the `{ code, message, data }` response envelope, and the paths and bodies of the
    migration endpoints. The fetch itself is left out: a response body arrives as JSON text. */
module ApiClient {
  import opened Wrappers
  import opened Text
  import opened JsonValue
  import opened Types

  const ApiBase: string := "/api/v1"
  const ContentType: string := "Content-Type"
  const DefaultRequestFailed: string := "Request failed"

  /** The URL fetched for an API path. */
  function RequestUrl(path: string): (url: string)
    ensures |url| == |ApiBase| + |path| && url[..|ApiBase|] == ApiBase && url[|ApiBase|..] == path
  {
    ApiBase + path
  }

  /** The headers sent: JSON content type unless the caller supplies its own, plus every header
      the caller supplies, unchanged. */
  function Headers(caller: map<string, string>): (h: map<string, string>)
    ensures h.Keys == caller.Keys + {ContentType}
    ensures forall k :: k in caller ==> h[k] == caller[k]
    ensures ContentType !in caller ==> h[ContentType] == "application/json"
  {
    map[ContentType := "application/json"] + caller
  }

  /** Why `request` rejects: the body was not JSON, the body was JSON `null` (reading `.code` of
      it throws), or the envelope carried a non-zero code. */
  datatype RequestError = BodyNotJson | NullBody | Failed(message: string)

  /** JavaScript's `String(v)` of a parsed JSON value, which is what `new Error(v)` keeps as
      its message. An array joins its items' texts with commas, an item `null` giving the empty
      text, and an object is `[object Object]`. */
  function JsString(j: Json): (t: string)
    ensures j.JString? ==> t == j.s
    ensures j.JObject? ==> t == "[object Object]"
    ensures j.JArray? && |j.items| == 0 ==> t == ""
    decreases j
  {
    match j
    case JNull => "null"
    case JBool(b) => if b then "true" else "false"
    case JNumber(n) => IntToString(n)
    case JString(s) => s
    case JArray(items) =>
      JoinComma(seq(|items|, k requires 0 <= k < |items| => if items[k].JNull? then "" else JsString(items[k])))
    case JObject(_) => "[object Object]"
  }

  /** `parts.join(',')`: the parts in order with one comma between neighbours, so the text is
      as long as the parts together plus the commas. */
  function JoinComma(parts: seq<string>): (s: string)
    ensures |parts| == 0 ==> s == ""
    ensures |parts| == 1 ==> s == parts[0]
    ensures |parts| >= 1 ==> |s| == TotalLength(parts) + |parts| - 1
    ensures |parts| > 1 ==> |s| > |parts[0]| && s[..|parts[0]|] == parts[0] && s[|parts[0]|] == ','
  {
    if |parts| == 0 then ""
    else if |parts| == 1 then parts[0]
    else
      var rest := JoinComma(parts[1..]);
      assert TotalLength(parts) == |parts[0]| + TotalLength(parts[1..]);
      parts[0] + "," + rest
  }

  /** The summed length of the parts. */
  function TotalLength(parts: seq<string>): nat {
    if |parts| == 0 then 0 else |parts[0]| + TotalLength(parts[1..])
  }

  /** Splitting the joined text at commas gives the parts back when none of them holds a comma. */
  lemma {:induction false} SplitJoinComma(parts: seq<string>)
    requires |parts| >= 1 && forall i :: 0 <= i < |parts| ==> ',' !in parts[i]
    ensures Split(JoinComma(parts), ',') == parts
  {
    if |parts| > 1 {
      SplitJoinComma(parts[1..]);
      SplitAppend(parts[0], ',', JoinComma(parts[1..]));
      assert parts[0] + "," + JoinComma(parts[1..]) == parts[0] + [','] + JoinComma(parts[1..]);
      assert parts == [parts[0]] + parts[1..];
    } else {
      assert ',' !in parts[0];
    }
  }

  /** Whether `message` is truthy: present and none of `null`, `false`, `0` and "". */
  predicate Truthy(m: Option<Json>) {
    m.Some? && m.value != JNull && m.value != JBool(false) && m.value != JNumber(0) && m.value != JString("")
  }

  /** The text of the error `new Error(message || 'Request failed')`: a falsy message gives the
      default, and any other message its `String` form. Only an array can give an empty text. */
  function MessageText(m: Option<Json>): (t: string)
    ensures !Truthy(m) ==> t == DefaultRequestFailed
    ensures m.Some? && m.value.JString? && m.value.s != "" ==> t == m.value.s
    ensures m.Some? && m.value.JObject? ==> t == "[object Object]"
    ensures Truthy(m) ==> t == JsString(m.value)
    ensures !(m.Some? && m.value.JArray?) ==> t != ""
  {
    if Truthy(m) then JsString(m.value) else DefaultRequestFailed
  }

  /** An empty array is truthy, yet its text is empty: the rejection carries an empty message. */
  lemma EmptyArrayMessage()
    ensures Truthy(Some(JArray([]))) && MessageText(Some(JArray([]))) == ""
  {
  }

  /** `request` after the fetch: the envelope's `data` (absent is `undefined`) when `code` is
      exactly 0, and otherwise a rejection carrying the message. */
  function DecodeEnvelope(body: JsonText): (r: Result<Option<Json>, RequestError>)
    ensures body.Malformed? ==> r == Err(BodyNotJson)
    ensures body == Parsed(JNull) ==> r == Err(NullBody)
    ensures r.Ok? <==> body.Parsed? && Member(body.value, "code") == Some(JNumber(0))
    ensures r.Ok? ==> r.value == Member(body.value, "data")
  {
    match body
    case Malformed => Err(BodyNotJson)
    case Parsed(JNull) => Err(NullBody)
    case Parsed(j) =>
      if Member(j, "code") == Some(JNumber(0)) then Ok(Member(j, "data"))
      else Err(Failed(MessageText(Member(j, "message"))))
  }

  /** The envelope the server writes: `code`, `message` and, when there is one, `data`. */
  function EnvelopeJson(code: int, message: string, data: Option<Json>): (j: Json)
    ensures j.JObject? && "code" in j.fields && "message" in j.fields
    ensures ("data" in j.fields) == data.Some?
  {
    var base := map["code" := JNumber(code), "message" := JString(message)];
    JObject(if data.Some? then base["data" := data.value] else base)
  }

  /** Decoding an envelope the server wrote gives back its data on code 0, and otherwise its
      message, or "Request failed" when the message is empty. */
  lemma EnvelopeRoundTrip(code: int, message: string, data: Option<Json>)
    ensures code == 0 ==> DecodeEnvelope(Parsed(EnvelopeJson(code, message, data))) == Ok(data)
    ensures code != 0 ==> DecodeEnvelope(Parsed(EnvelopeJson(code, message, data))) ==
                          Err(Failed(if message == "" then DefaultRequestFailed else message))
  {
  }

  /** `listMigrations(limit = 20, offset = 0)`: the query carries both numbers. */
  function ListMigrationsPath(limit: Option<int>, offset: Option<int>): (path: string)
    ensures limit.None? && offset.None? ==> path == "/migrations?limit=20&offset=0"
  {
    "/migrations?limit=" + IntToString(limit.GetOr(20)) + "&offset=" + IntToString(offset.GetOr(0))
  }

  /** `getMigrationStatus`. */
  function StatusPath(taskId: string): (p: string)
    ensures StartsWith(p, "/migration/") && p[|"/migration/"|..] == taskId
  {
    "/migration/" + taskId
  }

  /** The three control actions, each a POST to `/migration/<id>/<action>`. */
  datatype Control = Pause | Resume | Cancel

  /** The action's name, a single path segment. */
  function ControlName(c: Control): (n: string)
    ensures n != "" && '/' !in n && '?' !in n
  {
    match c
    case Pause => "pause"
    case Resume => "resume"
    case Cancel => "cancel"
  }

  /** The control path of a task is its status path with the action as one more segment. */
  function ControlPath(taskId: string, c: Control): (p: string)
    ensures p == StatusPath(taskId) + "/" + ControlName(c)
  {
    "/migration/" + taskId + "/" + ControlName(c)
  }

  /** The three actions go to three different paths of the same task. */
  lemma ControlPathsDistinct(taskId: string, c1: Control, c2: Control)
    requires c1 != c2
    ensures ControlPath(taskId, c1) != ControlPath(taskId, c2)
  {
    var p := StatusPath(taskId) + "/";
    assert ControlPath(taskId, c1)[|p|..] == ControlName(c1);
    assert ControlPath(taskId, c2)[|p|..] == ControlName(c2);
  }

  /** The body of `createMigration`: each argument under its snake-case key. */
  function CreateMigrationBody(sourceFolders: seq<string>, host: string, username: string,
                               password: string, basePath: string, options: MigrationOptions): (j: Json)
    ensures j.JObject?
    ensures j.fields.Keys == {"source_folders", "zimaos_host", "zimaos_username", "zimaos_password", "base_path", "options"}
    ensures j.fields["zimaos_host"] == JString(host) && j.fields["zimaos_username"] == JString(username)
    ensures j.fields["zimaos_password"] == JString(password) && j.fields["base_path"] == JString(basePath)
    ensures j.fields["options"] == OptionsToJson(options)
    ensures j.fields["source_folders"].JArray? && |j.fields["source_folders"].items| == |sourceFolders|
    ensures forall i :: 0 <= i < |sourceFolders| ==> j.fields["source_folders"].items[i] == JString(sourceFolders[i])
  {
    JObject(map[
      "source_folders" := StringArray(sourceFolders),
      "zimaos_host" := JString(host),
      "zimaos_username" := JString(username),
      "zimaos_password" := JString(password),
      "base_path" := JString(basePath),
      "options" := OptionsToJson(options)])
  }
}
