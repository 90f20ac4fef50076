/** The ZimaOS HTTP client (service/zimaos_client.go), reduced to the decisions it takes on what
    comes back: the token it extracts from a login response, how it classifies the answer to a
    folder creation, how it trims a partial download, how it finds a file in a listing, and what
    its progress and cancellation readers pass on. A response is its status code and its body,
    given both as text and as the JSON value the text decodes to. */
module ZimaosClient {
  import opened Wrappers
  import opened JsonValue
  import opened Text
  import opened Seqs

  /** An HTTP response: the status, the body text, and that text decoded as JSON. */
  datatype Response = Response(status: int, body: string, json: JsonText)

  /** What `Login` ends in: a token, an error, or the panic of logging a token shorter than ten
      bytes through the byte slice `token[:10]`. */
  datatype LoginOutcome = LoggedIn(token: string) | LoginFailed(message: string) | LoginPanicked

  const NoTokenMessage: string := "no token received from login response"
  const DecodeLoginMessage: string := "failed to decode login response"

  /** The type-check that decoding into the login response record performs: `success` must be a
      number, `message` a string and `data` an object, each possibly null or absent; `null` at
      the top level decodes to the zero record. */
  predicate DecodesAsLoginResponse(j: Json) {
    j.JNull? ||
    (j.JObject? &&
     (Member(j, "success").None? || Member(j, "success").value.JNull? || Member(j, "success").value.JNumber?) &&
     (Member(j, "message").None? || Member(j, "message").value.JNull? || Member(j, "message").value.JString?) &&
     (Member(j, "data").None? || Member(j, "data").value.JNull? || Member(j, "data").value.JObject?))
  }

  /** The token taken from the decoded record, starting from the client's current `token`:
      `data.token` as a string (even an empty one), else its `access_token`, else its
      `refresh_token`; anything else leaves `token` as it was. */
  function StructuredToken(j: Json, token: string): (r: string)
    ensures (exists d :: Member(j, "data") == Some(d) && Member(d, "token").Some? && Member(d, "token").value.JString?) ==>
              r == Member(Member(j, "data").value, "token").value.s
    ensures (Member(j, "data").None? || Member(Member(j, "data").value, "token").None?) ==> r == token
  {
    match Member(j, "data")
    case Some(d) =>
      (match Member(d, "token")
       case Some(JString(s)) => s
       case Some(JObject(m)) =>
         var t := JObject(m);
         if StringMember(t, "access_token").Some? then StringMember(t, "access_token").value
         else if StringMember(t, "refresh_token").Some? then StringMember(t, "refresh_token").value
         else token
       case _ => token)
    case None => token
  }

  /** The second pass over the raw map, taken only while no token is known: `data.token` as a
      string, else its `access_token`, and then, if still empty, the top-level `token`. */
  function RawFallbackToken(j: Json, token: string): (r: string)
    ensures token != "" ==> r == token
  {
    if token != "" then token
    else
      var fromData :=
        match Member(j, "data")
        case Some(d) =>
          (match Member(d, "token")
           case Some(JString(s)) => s
           case Some(JObject(m)) =>
             var t := JObject(m);
             if StringMember(t, "access_token").Some? then StringMember(t, "access_token").value else token
           case _ => token)
        case None => token;
      if fromData == "" && StringMember(j, "token").Some? then StringMember(j, "token").value else fromData
  }

  /** `Login`, given the client's current token and the login response. */
  function Login(token: string, resp: Response): (r: LoginOutcome)
    ensures resp.status != 200 ==> r.LoginFailed?
    ensures resp.json.Malformed? ==> r.LoginFailed?
    ensures r.LoggedIn? ==> Utf8Length(r.token) >= 10
    ensures r == LoginFailed(NoTokenMessage) ==>
              resp.status == 200 && resp.json.Parsed? && DecodesAsLoginResponse(resp.json.value)
  {
    if resp.status != 200 then
      var m := "login failed with status " + IntToString(resp.status) + ": " + resp.body;
      assert m[0] != NoTokenMessage[0];
      LoginFailed(m)
    else if resp.json.Malformed? || !DecodesAsLoginResponse(resp.json.value) then LoginFailed(DecodeLoginMessage)
    else
      var j := resp.json.value;
      var t := RawFallbackToken(j, StructuredToken(j, token));
      if t == "" then LoginFailed(NoTokenMessage)
      else if Utf8Length(t) < 10 then LoginPanicked
      else LoggedIn(t)
  }

  /** The top-level `token` string of a response, "" when there is none. */
  function TopLevelToken(j: Json): string {
    if StringMember(j, "token").Some? then StringMember(j, "token").value else ""
  }

  /** For a fresh client the raw pass can only add the top-level `token`: whatever it re-reads
      under `data.token` the structured pass had already taken. So the token obtained is the
      structured one when non-empty, and otherwise the top-level one. */
  lemma FreshLoginToken(resp: Response)
    requires resp.status == 200 && resp.json.Parsed? && DecodesAsLoginResponse(resp.json.value)
    ensures var j := resp.json.value;
      var t := if StructuredToken(j, "") != "" then StructuredToken(j, "") else TopLevelToken(j);
      Login("", resp) == (if t == "" then LoginFailed(NoTokenMessage) else if Utf8Length(t) < 10 then LoginPanicked else LoggedIn(t))
  {
  }

  /** The panic test counts bytes: a token of four four-byte characters is sixteen bytes long
      and logs in, although it has only four characters. */
  lemma WideTokenLogsIn()
    ensures var t := "\U{1F600}\U{1F600}\U{1F600}\U{1F600}";
      Login("", Response(200, "", Parsed(JObject(map["data" := JObject(map["token" := JString(t)])])))) == LoggedIn(t)
  {
    CutThroughWideCharacter();
    var t := "\U{1F600}\U{1F600}\U{1F600}\U{1F600}";
    var j := JObject(map["data" := JObject(map["token" := JString(t)])]);
    assert Member(j, "data") == Some(JObject(map["token" := JString(t)]));
    assert StructuredToken(j, "") == t;
  }

  /** The precedence of the structured pass: a string `data.token` beats everything, an
      `access_token` beats a `refresh_token`. */
  lemma TokenPrecedence(access: string, refresh: string)
    ensures StructuredToken(JObject(map["data" := JObject(map["token" := JString(access)])]), "") == access
    ensures StructuredToken(JObject(map["data" := JObject(map["token" := JObject(
              map["access_token" := JString(access), "refresh_token" := JString(refresh)])])]), "") == access
    ensures StructuredToken(JObject(map["data" := JObject(map["token" := JObject(
              map["refresh_token" := JString(refresh)])])]), "") == refresh
  {
    var o := JObject(map["access_token" := JString(access), "refresh_token" := JString(refresh)]);
    assert StringMember(o, "access_token") == Some(access);
    var o2 := JObject(map["refresh_token" := JString(refresh)]);
    assert StringMember(o2, "access_token").None?;
  }

  /** How the answer to a folder creation is read. */
  datatype FolderOutcome = Created | AlreadyExists | FolderFailed(message: string)

  /** The plain-text bodies taken to mean the folder is already there. */
  predicate PlainAlreadyExists(body: string) {
    body == "" || body == "folder already exists" || body == "directory already exists"
  }

  /** The JSON `message` values taken to mean the folder is already there. */
  predicate JsonAlreadyExists(json: JsonText) {
    json.Parsed? && StringMember(json.value, "message").Some? &&
    StringMember(json.value, "message").value in {"path already exist", "folder already exists", "directory already exists"}
  }

  /** `CreateFolder` once the request was answered. */
  function ClassifyCreateFolder(resp: Response): (r: FolderOutcome)
    ensures r.Created? <==> resp.status == 200 || resp.status == 201
    ensures r.AlreadyExists? <==>
              resp.status != 200 && resp.status != 201 &&
              (resp.status == 409 ||
               (resp.status >= 400 && (PlainAlreadyExists(resp.body) || JsonAlreadyExists(resp.json))))
  {
    if resp.status == 200 || resp.status == 201 then Created
    else if resp.status == 409 || (resp.status >= 400 && PlainAlreadyExists(resp.body)) then AlreadyExists
    else if resp.status >= 400 && JsonAlreadyExists(resp.json) then AlreadyExists
    else FolderFailed("create folder failed with status " + IntToString(resp.status) + ": " + resp.body)
  }

  /** Success is 200, 201 or an "already exists" answer; every other status below 400 is an
      error, whatever the body says, and so is every other status from 400 up whose body is not
      one of the recognised answers. */
  lemma CreateFolderErrors(resp: Response)
    ensures resp.status < 400 && resp.status != 200 && resp.status != 201 ==> ClassifyCreateFolder(resp).FolderFailed?
    ensures resp.status >= 400 && resp.status != 409 && !PlainAlreadyExists(resp.body) && !JsonAlreadyExists(resp.json) ==>
              ClassifyCreateFolder(resp).FolderFailed?
  {
  }

  /** The `Range` header of a partial download of `size` bytes. */
  function RangeHeader(size: int): (h: string)
    ensures StartsWith(h, "bytes=0-") && h[8..] == IntToString(size - 1)
  {
    "bytes=0-" + IntToString(size - 1)
  }

  /** What `DownloadPartialFile` ends in. A negative size with an accepted answer reaches
      `data[:size]` with a negative bound, which panics. */
  datatype Download = Downloaded(data: seq<bv8>) | DownloadFailed(message: string) | DownloadPanicked

  function DownloadPartial(size: int, status: int, data: seq<bv8>): (r: Download)
    ensures (status != 200 && status != 206) <==> r.DownloadFailed?
    ensures (status == 200 || status == 206) && size < 0 <==> r.DownloadPanicked?
    ensures r.Downloaded? ==> |r.data| <= |data| && 0 <= size && |r.data| <= size && r.data == data[..|r.data|]
    ensures r.Downloaded? ==> |r.data| == (if |data| <= size then |data| else size)
  {
    if status != 200 && status != 206 then DownloadFailed("download failed with status " + IntToString(status))
    else if |data| > size then (if size < 0 then DownloadPanicked else Downloaded(data[..size]))
    else Downloaded(data)
  }

  /** An entry of a directory listing. */
  datatype FileMetadata = FileMetadata(name: string, size: int, modified: int, isDir: bool, path: string)

  /** `GetFileInfo`: the listing of the parent (None when it did not decode) is searched for the
      first entry named like the last element of `filePath`. */
  function GetFileInfo(filePath: string, status: int, listing: Option<seq<FileMetadata>>): (r: Result<FileMetadata, string>)
    ensures status != 200 || listing.None? ==> r.Err?
    ensures r.Ok? ==> r.value.name == PathBase(filePath) &&
                      exists i :: 0 <= i < |listing.value| && listing.value[i] == r.value &&
                        forall j :: 0 <= j < i ==> listing.value[j].name != PathBase(filePath)
    ensures status == 200 && listing.Some? ==>
              (r.Err? <==> forall i :: 0 <= i < |listing.value| ==> listing.value[i].name != PathBase(filePath))
  {
    if status != 200 then Err("failed to get file list with status " + IntToString(status))
    else if listing.None? then Err("failed to parse response")
    else
      var name := PathBase(filePath);
      match Find(listing.value, (f: FileMetadata) => f.name == name)
      case Some(f) => Ok(f)
      case None => Err("file not found: " + filePath)
  }

  /** The progress deltas a `progressReader` reports for a run of reads returning `counts` bytes:
      one per read that returned some bytes. */
  function ProgressDeltas(counts: seq<nat>): (d: seq<nat>)
    ensures |d| <= |counts|
    ensures forall i :: 0 <= i < |d| ==> d[i] > 0
    ensures Sum(d) == Sum(counts)
  {
    if |counts| == 0 then []
    else
      var rest := ProgressDeltas(counts[1..]);
      if counts[0] > 0 then [counts[0]] + rest else rest
  }

  /** Reporting is per read: the deltas of two runs of reads are the deltas of each. */
  lemma {:induction false} ProgressDeltasConcat(a: seq<nat>, b: seq<nat>)
    ensures ProgressDeltas(a + b) == ProgressDeltas(a) + ProgressDeltas(b)
  {
    if |a| == 0 {
      assert a + b == b;
    } else {
      assert (a + b)[1..] == a[1..] + b;
      ProgressDeltasConcat(a[1..], b);
    }
  }

  /** The answer of one `Read`. */
  datatype ReadResult = ReadResult(n: nat, err: Option<string>)

  /** A `cancelableReader` read: with the context done (`ctxErr` holds its error) nothing is read
      and no bytes come back; otherwise the inner read is passed on. The flag says whether the
      inner reader was consulted. */
  function CancelableRead(ctxErr: Option<string>, inner: ReadResult): (r: (ReadResult, bool))
    ensures ctxErr.Some? <==> !r.1
    ensures ctxErr.Some? ==> r.0 == ReadResult(0, ctxErr)
    ensures ctxErr.None? ==> r.0 == inner
  {
    if ctxErr.Some? then (ReadResult(0, ctxErr), false) else (inner, true)
  }

  /** Once the context is done, reads through both wrappers report no progress at all. */
  lemma CancelledReadsReportNothing(ctxErr: string, inner: seq<ReadResult>)
    ensures ProgressDeltas(seq(|inner|, i requires 0 <= i < |inner| => CancelableRead(Some(ctxErr), inner[i]).0.n)) == []
  {
    var counts := seq(|inner|, i requires 0 <= i < |inner| => CancelableRead(Some(ctxErr), inner[i]).0.n);
    assert Sum(ProgressDeltas(counts)) == 0 by { ZeroSum(counts); }
  }

  lemma {:induction false} ZeroSum(s: seq<nat>)
    requires forall i :: 0 <= i < |s| ==> s[i] == 0
    ensures Sum(s) == 0
  {
    if |s| > 0 {
      ZeroSum(s[1..]);
    }
  }
}
