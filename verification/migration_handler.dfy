/** The migration HTTP handlers (handler/migration_handler.go) over the service model: request
    binding with its `required` rules, the gates in front of each service call, the status codes
    of the failures, and the normalisation of the list query. A handler takes the service state
    and the request and returns the reply, the new state and, for a create, the task ids handed
    to the worker queue. */
module MigrationHandler {
  import opened Wrappers
  import opened Text
  import opened JsonValue
  import opened Types
  import opened TaskModel
  import opened MigrationService
  import ZimaosClient
  import ApiClient

  /** What a handler writes. A failure is its HTTP status and message; the recovery middleware's
      answer to a panic is the failure 500 "internal server error". The message of a plain
      success is the response helper's own, which is not part of this model (None). */
  datatype Payload =
    | NoData
    | TokenData(token: string)
    | TaskIdData(taskId: string)
    | StatusData(status: TaskStatus)
    | ListData(tasks: seq<MigrationTask>, total: nat, limit: int, offset: int)

  datatype Reply = Success(note: Option<string>, payload: Payload) | Failure(status: int, message: string)

  const PanicReply: Reply := Failure(500, "internal server error")

  /** A string field with `binding:"required"`: absent, null and "" all fail the rule; another
      JSON type fails decoding. */
  function RequiredString(j: Json, key: string): (r: Result<string, string>)
    ensures r.Ok? <==> exists s :: Member(j, key) == Some(JString(s)) && s != ""
    ensures r.Ok? ==> Member(j, key) == Some(JString(r.value))
  {
    match Member(j, key)
    case Some(JString(s)) => if s == "" then Err(key + " is required") else Ok(s)
    case None => Err(key + " is required")
    case Some(JNull) => Err(key + " is required")
    case Some(_) => Err("cannot unmarshal " + key)
  }

  /** A `[]string` field with `binding:"required"`: absent or null leaves the slice nil and fails
      the rule, an empty array passes it; an array holding a non-string, or a non-array, fails
      decoding. */
  function RequiredStringList(j: Json, key: string): (r: Result<seq<string>, string>)
    ensures r.Ok? ==> Member(j, key).Some? && Member(j, key).value.JArray? &&
                      Member(j, key).value == StringArray(r.value)
    ensures Member(j, key).None? || Member(j, key) == Some(JNull) ==> r.Err?
  {
    match Member(j, key)
    case Some(JArray(items)) =>
      if forall i :: 0 <= i < |items| ==> items[i].JString? then
        var list := DecodeStringList(Parsed(JArray(items)));
        assert JArray(items) == StringArray(list);
        Ok(list)
      else Err("cannot unmarshal " + key)
    case None => Err(key + " is required")
    case Some(JNull) => Err(key + " is required")
    case Some(_) => Err("cannot unmarshal " + key)
  }

  datatype CreateRequest = CreateRequest(sourceFolders: seq<string>, host: string, username: string,
                                         password: string, basePath: string, options: MigrationOptions)

  /** `ShouldBindJSON` into the create request. The options are optional: absent they are all
      false. */
  function BindCreate(body: JsonText): (r: Result<CreateRequest, string>)
    ensures body.Malformed? || (body.Parsed? && !body.value.JObject?) ==> r.Err?
    ensures r.Ok? ==> r.value.host != "" && r.value.username != "" && r.value.password != "" &&
                      r.value.basePath != ""
  {
    match body
    case Malformed => Err("invalid character")
    case Parsed(j) =>
      if !j.JObject? then Err("request body is not an object")
      else
        var options := if Member(j, "options").Some? then OptionsFromJson(Member(j, "options").value)
                       else Ok(MigrationOptions(false, false, false, false));
        match (RequiredStringList(j, "source_folders"), RequiredString(j, "zimaos_host"),
               RequiredString(j, "zimaos_username"), RequiredString(j, "zimaos_password"),
               RequiredString(j, "base_path"), options)
        case (Ok(f), Ok(h), Ok(u), Ok(p), Ok(b), Ok(o)) => Ok(CreateRequest(f, h, u, p, b, o))
        case _ => Err("validation failed")
  }

  /** What the browser sends for a migration binds back to the same request, as long as the
      required strings are non-empty; the folder list may be empty at this stage. */
  lemma CreateBodyBinds(sourceFolders: seq<string>, host: string, username: string, password: string,
                        basePath: string, options: MigrationOptions)
    requires host != "" && username != "" && password != "" && basePath != ""
    ensures BindCreate(Parsed(ApiClient.CreateMigrationBody(sourceFolders, host, username, password, basePath, options))) ==
            Ok(CreateRequest(sourceFolders, host, username, password, basePath, options))
  {
    var j := ApiClient.CreateMigrationBody(sourceFolders, host, username, password, basePath, options);
    assert j.fields["source_folders"] == StringArray(sourceFolders);
    StringListRoundTrip(sourceFolders);
    assert RequiredStringList(j, "source_folders") == Ok(sourceFolders);
    OptionsRoundTrip(options);
  }

  /** `CreateMigration`: a binding failure or an empty folder list is a bad request; a service
      failure is a 500; otherwise the new task id is queued for the worker and returned. */
  function CreateMigration(st: ServiceState, body: JsonText, freshId: string, now: Time)
    : (r: (Reply, ServiceState, seq<string>))
    ensures r.0.Failure? ==> r.1 == st && r.2 == []
    ensures r.0.Success? ==> r.0.payload == TaskIdData(freshId) && r.2 == [freshId] && BindCreate(body).Ok?
    ensures r.0.Success? ==> var q := BindCreate(body).value;
      |q.sourceFolders| > 0 &&
      CreateTask(st, freshId, q.sourceFolders, q.host, q.username, q.password, q.basePath, q.options, now) == Ok(r.1)
    ensures BindCreate(body).Err? ==> r.0.Failure? && r.0.status == 400
    ensures BindCreate(body).Ok? && BindCreate(body).value.sourceFolders == [] ==>
              r.0 == Failure(400, "At least one source folder is required")
  {
    match BindCreate(body)
    case Err(e) => (Failure(400, "Invalid request: " + e), st, [])
    case Ok(q) =>
      if |q.sourceFolders| == 0 then (Failure(400, "At least one source folder is required"), st, [])
      else
        match CreateTask(st, freshId, q.sourceFolders, q.host, q.username, q.password, q.basePath, q.options, now)
        case Err(e) => (Failure(500, "Failed to create task: " + e), st, [])
        case Ok(st') => (Success(None, TaskIdData(freshId)), st', [freshId])
  }

  /** A created task is stored pending, valid, and found under the id the reply carries. */
  lemma CreatedTaskIsPending(st: ServiceState, body: JsonText, freshId: string, now: Time)
    requires Valid(st) && CreateMigration(st, body, freshId, now).0.Success?
    ensures var st' := CreateMigration(st, body, freshId, now).1;
      Valid(st') && GetTask(st', freshId).Some? && GetTask(st', freshId).value.status == StatusPending
  {
    var q := BindCreate(body).value;
    CreateTaskValid(st, freshId, q.sourceFolders, q.host, q.username, q.password, q.basePath, q.options, now);
  }

  /** `GetMigrationStatus`: an empty id is a bad request and an unknown one is 404. */
  function GetMigrationStatus(st: ServiceState, taskId: string): (r: Reply)
    ensures taskId == "" ==> r == Failure(400, "Task ID is required")
    ensures taskId != "" && GetTask(st, taskId).None? ==> r == Failure(404, "Task not found")
    ensures r.Success? <==> taskId != "" && GetTask(st, taskId).Some?
    ensures r.Success? ==> r.payload.StatusData? && r.payload.status.zimaosHost == GetTask(st, taskId).value.zimaosHost
  {
    if taskId == "" then Failure(400, "Task ID is required")
    else
      match GetTaskStatus(st, taskId)
      case Err(_) => Failure(404, "Task not found")
      case Ok(s) => Success(None, StatusData(s))
  }

  /** `ListMigrations`' reading of `limit`: a missing parameter is "20", and anything that is not
      a positive int64 becomes 20. */
  function NormalizeLimit(limitStr: Option<string>): (limit: int)
    ensures limit > 0
    ensures Atoi(limitStr.GetOr("20")).Some? && Atoi(limitStr.GetOr("20")).value > 0 ==>
              limit == Atoi(limitStr.GetOr("20")).value
    ensures !(Atoi(limitStr.GetOr("20")).Some? && Atoi(limitStr.GetOr("20")).value > 0) ==> limit == 20
  {
    match Atoi(limitStr.GetOr("20"))
    case Some(n) => if n <= 0 then 20 else n
    case None => 20
  }

  /** The reading of `offset`: a missing parameter is "0", and anything that is not a
      non-negative int64 becomes 0. */
  function NormalizeOffset(offsetStr: Option<string>): (offset: int)
    ensures offset >= 0
    ensures Atoi(offsetStr.GetOr("0")).Some? && Atoi(offsetStr.GetOr("0")).value >= 0 ==>
              offset == Atoi(offsetStr.GetOr("0")).value
    ensures !(Atoi(offsetStr.GetOr("0")).Some? && Atoi(offsetStr.GetOr("0")).value >= 0) ==> offset == 0
  {
    match Atoi(offsetStr.GetOr("0"))
    case Some(n) => if n < 0 then 0 else n
    case None => 0
  }

  /** Normalising is the identity on what it produces: a limit or offset rendered back into the
      query reads as itself. */
  lemma NormalizeIdempotent(limitStr: Option<string>, offsetStr: Option<string>)
    ensures var l := NormalizeLimit(limitStr); NormalizeLimit(Some(IntToString(l))) == l
    ensures var o := NormalizeOffset(offsetStr); NormalizeOffset(Some(IntToString(o))) == o
  {
    AtoiIntToString(NormalizeLimit(limitStr));
    AtoiIntToString(NormalizeOffset(offsetStr));
  }

  /** `ListMigrations`: the page asked for, in the client's view, with the total and the limit
      and offset actually used. */
  function ListMigrations(st: ServiceState, limitStr: Option<string>, offsetStr: Option<string>): (r: Reply)
    ensures r.Success? && r.payload.ListData?
    ensures r.payload.limit == NormalizeLimit(limitStr) && r.payload.offset == NormalizeOffset(offsetStr)
    ensures r.payload.total == |st.rows| && |r.payload.tasks| <= r.payload.limit
    ensures var page := ListTasks(st, NormalizeLimit(limitStr), NormalizeOffset(offsetStr)).0;
      |r.payload.tasks| == |page| && forall i :: 0 <= i < |page| ==> r.payload.tasks[i] == ToClientView(page[i])
  {
    var limit := NormalizeLimit(limitStr);
    var offset := NormalizeOffset(offsetStr);
    var (page, total) := ListTasks(st, limit, offset);
    Success(None, ListData(seq(|page|, i requires 0 <= i < |page| => ToClientView(page[i])), total, limit, offset))
  }

  /** `CancelMigration`: an empty id is a bad request, a refused cancel a 500, and otherwise the
      service's cancel is applied, which writes only the task's row. */
  function CancelMigration(st: ServiceState, taskId: string, now: Time): (r: (Reply, ServiceState))
    ensures taskId == "" ==> r == (Failure(400, "Task ID is required"), st)
    ensures r.0.Failure? ==> r.1 == st
    ensures taskId != "" && CancelTask(st, taskId, now).Err? ==>
              r.0 == Failure(500, "Failed to cancel task: " + CancelTask(st, taskId, now).error)
    ensures r.0.Success? <==> taskId != "" && CancelTask(st, taskId, now).Ok?
    ensures r.0.Success? ==> r.0 == Success(Some("Task cancelled"), NoData) && Ok(r.1) == CancelTask(st, taskId, now)
  {
    if taskId == "" then (Failure(400, "Task ID is required"), st)
    else
      match CancelTask(st, taskId, now)
      case Err(e) => (Failure(500, "Failed to cancel task: " + e), st)
      case Ok(st') => (Success(Some("Task cancelled"), NoData), st')
  }

  /** As written, cancelling a task the worker is running answers "Task cancelled", yet the
      status request that follows still reports it running: the cached live status wins over the
      cancelled row. */
  lemma CancelThenStatusRunning(st: ServiceState, taskId: string, now: Time)
    requires Valid(st) && taskId != "" && GetTask(st, taskId).Some? && GetTask(st, taskId).value.status == StatusRunning
    requires taskId in st.cache && st.cache[taskId].status == StatusRunning
    ensures CancelMigration(st, taskId, now).0 == Success(Some("Task cancelled"), NoData)
    ensures var r := GetMigrationStatus(CancelMigration(st, taskId, now).1, taskId);
      r.Success? && r.payload.StatusData? && r.payload.status.status == StatusRunning
  {
    CancelKeepsCachedRunning(st, taskId, now);
  }

  /** The handler over the corrected cancel, which marks the cached status as well. */
  function CancelMigrationSynced(st: ServiceState, taskId: string, now: Time): (r: (Reply, ServiceState))
    ensures taskId == "" ==> r == (Failure(400, "Task ID is required"), st)
    ensures r.0.Failure? ==> r.1 == st
    ensures r.0.Success? <==> taskId != "" && CancelTask(st, taskId, now).Ok?
    ensures r.0.Success? ==> r.0 == Success(Some("Task cancelled"), NoData) && Ok(r.1) == CancelTaskSynced(st, taskId, now)
  {
    if taskId == "" then (Failure(400, "Task ID is required"), st)
    else
      match CancelTaskSynced(st, taskId, now)
      case Err(e) => (Failure(500, "Failed to cancel task: " + e), st)
      case Ok(st') => (Success(Some("Task cancelled"), NoData), st')
  }

  /** With the corrected cancel, the status request after a successful cancel reports the task
      cancelled. */
  lemma SyncedCancelThenStatus(st: ServiceState, taskId: string, now: Time)
    requires Valid(st) && CancelMigrationSynced(st, taskId, now).0.Success?
    ensures var r := GetMigrationStatus(CancelMigrationSynced(st, taskId, now).1, taskId);
      r.Success? && r.payload.StatusData? && r.payload.status.status == StatusCancelled
  {
    CancelIsReported(st, taskId, now);
  }

  datatype Credentials = Credentials(host: string, username: string, password: string)

  /** Binding the connection-test request: all three fields are required. */
  function BindCredentials(body: JsonText): (r: Result<Credentials, string>)
    ensures r.Ok? ==> r.value.host != "" && r.value.username != "" && r.value.password != ""
    ensures r.Ok? <==>
      (body.Parsed? && body.value.JObject? &&
       RequiredString(body.value, "host").Ok? && RequiredString(body.value, "username").Ok? &&
       RequiredString(body.value, "password").Ok?)
  {
    match body
    case Malformed => Err("invalid character")
    case Parsed(j) =>
      if !j.JObject? then Err("request body is not an object")
      else
        match (RequiredString(j, "host"), RequiredString(j, "username"), RequiredString(j, "password"))
        case (Ok(h), Ok(u), Ok(p)) => Ok(Credentials(h, u, p))
        case _ => Err("validation failed")
  }

  /** `TestConnection`: bind, log in with a fresh client (whose login answer is `resp`), and on
      success show the token's first ten bytes followed by "...", as the JSON reply renders them.
      A token shorter than ten bytes panics inside the login and the recovery middleware answers. */
  function TestConnection(body: JsonText, resp: ZimaosClient.Response): (r: Reply)
    ensures BindCredentials(body).Err? ==> r.Failure? && r.status == 400
    ensures r.Success? <==> BindCredentials(body).Ok? && ZimaosClient.Login("", resp).LoggedIn?
    ensures r.Success? ==> var t := ZimaosClient.Login("", resp).token;
      r == Success(Some("Connection successful"), TokenData(ShownBytePrefix(t, 10) + "..."))
    ensures BindCredentials(body).Ok? && ZimaosClient.Login("", resp).LoginPanicked? ==> r == PanicReply
  {
    match BindCredentials(body)
    case Err(e) => Failure(400, "Invalid request: " + e)
    case Ok(_) =>
      match ZimaosClient.Login("", resp)
      case LoggedIn(t) => Success(Some("Connection successful"), TokenData(ShownBytePrefix(t, 10) + "..."))
      case LoginFailed(m) => Failure(500, "Connection test failed: " + m)
      case LoginPanicked => PanicReply
  }

  /** The token shown is at most thirteen characters and ends in "...": the handler's own slice
      never fails, since a token shorter than ten bytes has already panicked inside the login. It
      is exactly the first ten characters and "..." when the token begins with ten ASCII
      characters; a cut through a wider character shows fewer. */
  lemma ShownTokenLength(body: JsonText, resp: ZimaosClient.Response)
    requires TestConnection(body, resp).Success?
    ensures var shown := TestConnection(body, resp).payload.token;
      |shown| <= 13 && shown[|shown| - 3..] == "..."
    ensures var t := ZimaosClient.Login("", resp).token;
      |t| >= 10 && IsAscii(t[..10]) ==> TestConnection(body, resp).payload.token == t[..10] + "..."
  {
    var t := ZimaosClient.Login("", resp).token;
    var shown := ShownBytePrefix(t, 10) + "...";
    assert shown[|shown| - 3..] == "...";
  }
}
