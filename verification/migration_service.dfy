/** The migration service (service/migration_service.go). The task table is a sequence of rows
    in primary-key order; the runtime status cache (`sync.Map`) is a map from task id to the
    live status. The clock and the freshly generated UUID are parameters. */
module MigrationService {
  import opened Wrappers
  import opened Seqs
  import opened JsonValue
  import opened Types
  import opened TaskModel

  datatype ServiceState = ServiceState(rows: seq<TaskRecord>, nextId: nat, cache: map<string, TaskStatus>)

  /** The table's constraints: primary keys and `task_id` are both unique, and primary keys are
      below `nextId`. */
  predicate Valid(st: ServiceState) {
    (forall i, j :: 0 <= i < j < |st.rows| ==> st.rows[i].taskId != st.rows[j].taskId) &&
    (forall i, j :: 0 <= i < j < |st.rows| ==> st.rows[i].id != st.rows[j].id) &&
    (forall i :: 0 <= i < |st.rows| ==> st.rows[i].id < st.nextId)
  }

  /** `GetTask`: the row with that `task_id`, or a not-found error. */
  function GetTask(st: ServiceState, taskId: string): (r: Option<TaskRecord>)
    ensures r.Some? ==> r.value.taskId == taskId && r.value in st.rows
    ensures r.None? <==> forall i :: 0 <= i < |st.rows| ==> st.rows[i].taskId != taskId
  {
    Find(st.rows, (t: TaskRecord) => t.taskId == taskId)
  }

  /** The row at `i` is the one found under its own id when ids are unique. */
  lemma GetTaskAt(st: ServiceState, i: nat)
    requires Valid(st) && i < |st.rows|
    ensures GetTask(st, st.rows[i].taskId) == Some(st.rows[i])
  {
    var r := GetTask(st, st.rows[i].taskId);
    var k :| 0 <= k < |st.rows| && st.rows[k] == r.value;
    assert st.rows[k].taskId == st.rows[i].taskId;
  }

  /** `CreateTask` with a freshly generated id: a new pending row with the folder list and the
      options stored as JSON text. Inserting an id that is already present violates the unique
      index and fails. */
  function CreateTask(st: ServiceState, freshId: string, sourceFolders: seq<string>, host: string,
                      username: string, password: string, basePath: string, options: MigrationOptions,
                      now: Time): (r: Result<ServiceState, string>)
    ensures r.Err? <==> GetTask(st, freshId).Some?
    ensures r.Ok? ==> |r.value.rows| == |st.rows| + 1 && r.value.rows[..|st.rows|] == st.rows &&
                      r.value.cache == st.cache
    ensures r.Ok? ==> var t := r.value.rows[|st.rows|];
      t.taskId == freshId && t.status == StatusPending && t.progress == 0.0 && t.zimaosPassword == password &&
      DecodeStringList(t.sourceFolders) == sourceFolders && t.options == Parsed(OptionsToJson(options))
  {
    if GetTask(st, freshId).Some? then Err("failed to create task: UNIQUE constraint failed")
    else
      StringListRoundTrip(sourceFolders);
      var t := NewRecord(st.nextId, freshId, Parsed(StringArray(sourceFolders)), host, username, password,
                         basePath, Parsed(OptionsToJson(options)), now);
      Ok(ServiceState(st.rows + [t], st.nextId + 1, st.cache))
  }

  /** Creating a task keeps the table valid, and the new task is found under its id. */
  lemma CreateTaskValid(st: ServiceState, freshId: string, sourceFolders: seq<string>, host: string,
                        username: string, password: string, basePath: string, options: MigrationOptions, now: Time)
    requires Valid(st)
    requires CreateTask(st, freshId, sourceFolders, host, username, password, basePath, options, now).Ok?
    ensures var st' := CreateTask(st, freshId, sourceFolders, host, username, password, basePath, options, now).value;
      Valid(st') && GetTask(st', freshId).Some? && GetTask(st', freshId).value.status == StatusPending
  {
    var st' := CreateTask(st, freshId, sourceFolders, host, username, password, basePath, options, now).value;
    GetTaskAt(st', |st.rows|);
  }

  /** The status fields that can be read straight off a row when nothing is cached. */
  function StatusFromRow(t: TaskRecord, folders: seq<string>): TaskStatus {
    TaskStatus(t.taskId, t.status, "", 0, 0, 0.0, 0, t.processedFiles, t.totalFiles, t.transferredSize,
               t.totalSize, t.progress, t.failedFiles, 0, 0, 0, t.updatedAt, folders, t.zimaosHost,
               t.basePath, t.error)
  }

  /** `GetTaskStatus`: unknown ids are an error. A cached runtime status supplies status and
      counters, while the folder list, host, base path and error always come from the row; with no
      cache entry everything comes from the row. Unparseable stored folders read as empty. */
  function GetTaskStatus(st: ServiceState, taskId: string): (r: Result<TaskStatus, string>)
    ensures r.Err? <==> GetTask(st, taskId).None?
    ensures r.Ok? ==> var t := GetTask(st, taskId).value;
      r.value.sourceFolders == DecodeStringList(t.sourceFolders) && r.value.zimaosHost == t.zimaosHost &&
      r.value.basePath == t.basePath && r.value.error == t.error
    ensures r.Ok? && taskId in st.cache ==> var c := st.cache[taskId];
      r.value.status == c.status && r.value.processedFiles == c.processedFiles &&
      r.value.totalFiles == c.totalFiles && r.value.transferredSize == c.transferredSize &&
      r.value.totalSize == c.totalSize && r.value.failedFiles == c.failedFiles &&
      r.value.verifyingFiles == c.verifyingFiles && r.value.currentFile == c.currentFile
    ensures r.Ok? && taskId !in st.cache ==> var t := GetTask(st, taskId).value;
      r.value.taskId == t.taskId && r.value.status == t.status && r.value.processedFiles == t.processedFiles &&
      r.value.totalFiles == t.totalFiles && r.value.transferredSize == t.transferredSize &&
      r.value.totalSize == t.totalSize && r.value.failedFiles == t.failedFiles
  {
    match GetTask(st, taskId)
    case None => Err("record not found")
    case Some(t) =>
      var folders := DecodeStringList(t.sourceFolders);
      if taskId in st.cache then
        Ok(st.cache[taskId].(sourceFolders := folders, zimaosHost := t.zimaosHost, basePath := t.basePath,
                             error := t.error))
      else Ok(StatusFromRow(t, folders))
  }

  /** `UpdateTaskStatus`: store the runtime status under the id, replacing any earlier one. */
  function UpdateTaskStatus(st: ServiceState, taskId: string, s: TaskStatus): (r: ServiceState)
    ensures r.rows == st.rows && r.cache.Keys == st.cache.Keys + {taskId} && r.cache[taskId] == s
    ensures forall k :: k in st.cache && k != taskId ==> r.cache[k] == st.cache[k]
  {
    st.(cache := st.cache[taskId := s])
  }

  /** The cache is last-write-wins: a later update hides the earlier one entirely, and what is
      read back carries the later status and counters. */
  lemma LastWriteWins(st: ServiceState, taskId: string, s1: TaskStatus, s2: TaskStatus)
    requires GetTask(st, taskId).Some?
    ensures UpdateTaskStatus(UpdateTaskStatus(st, taskId, s1), taskId, s2) == UpdateTaskStatus(st, taskId, s2)
    ensures var r := GetTaskStatus(UpdateTaskStatus(UpdateTaskStatus(st, taskId, s1), taskId, s2), taskId);
      r.Ok? && r.value.status == s2.status && r.value.processedFiles == s2.processedFiles &&
      r.value.transferredSize == s2.transferredSize
  {
  }

  /** `UpdateTask` (gorm `Save`): the row with the same primary key is replaced and its update time
      set; a row whose key is not stored is appended. */
  function SaveTask(st: ServiceState, t: TaskRecord, now: Time): (r: ServiceState)
    ensures r.cache == st.cache
    ensures FirstIndex(st.rows, (x: TaskRecord) => x.id == t.id).Some? ==>
      |r.rows| == |st.rows| &&
      var i := FirstIndex(st.rows, (x: TaskRecord) => x.id == t.id).value;
      r.rows[i] == t.(updatedAt := now) && forall j :: 0 <= j < |st.rows| && j != i ==> r.rows[j] == st.rows[j]
    ensures FirstIndex(st.rows, (x: TaskRecord) => x.id == t.id).None? ==> r.rows == st.rows + [t.(updatedAt := now)]
  {
    match FirstIndex(st.rows, (x: TaskRecord) => x.id == t.id)
    case Some(i) => st.(rows := st.rows[i := t.(updatedAt := now)])
    case None => st.(rows := st.rows + [t.(updatedAt := now)])
  }

  /** Saving a row that keeps the key and task id of the stored row for that task replaces it:
      the table stays valid and the task is then found exactly as saved. */
  lemma SaveFoundRow(st: ServiceState, t: TaskRecord, now: Time)
    requires Valid(st) && GetTask(st, t.taskId).Some? && GetTask(st, t.taskId).value.id == t.id
    ensures Valid(SaveTask(st, t, now)) && GetTask(SaveTask(st, t, now), t.taskId) == Some(t.(updatedAt := now))
  {
    var k :| 0 <= k < |st.rows| && st.rows[k] == GetTask(st, t.taskId).value;
    var i := FirstIndex(st.rows, (x: TaskRecord) => x.id == t.id).value;
    assert i == k;
    var st' := SaveTask(st, t, now);
    assert st'.rows == st.rows[k := t.(updatedAt := now)];
    GetTaskAt(st', k);
  }

  /** `CancelTask`: unknown ids fail; completed and cancelled tasks are refused; any other status,
      paused and failed included, becomes cancelled with a completion time. */
  function CancelTask(st: ServiceState, taskId: string, now: Time): (r: Result<ServiceState, string>)
    ensures GetTask(st, taskId).None? ==> r.Err?
    ensures GetTask(st, taskId).Some? ==>
      (r.Err? <==> GetTask(st, taskId).value.status in {StatusCompleted, StatusCancelled})
    ensures r.Ok? ==> r.value.cache == st.cache && |r.value.rows| == |st.rows|
  {
    match GetTask(st, taskId)
    case None => Err("record not found")
    case Some(t) =>
      if t.status == StatusCompleted || t.status == StatusCancelled then Err("task is already completed or cancelled")
      else
        var st' := SaveTask(st, t.(status := StatusCancelled, completedAt := Some(now)), now);
        assert FirstIndex(st.rows, (x: TaskRecord) => x.id == t.id).Some? by {
          var k :| 0 <= k < |st.rows| && st.rows[k] == t;
        }
        Ok(st')
  }

  /** After a cancel the row reads as cancelled, with the completion time set; a second cancel is
      refused. */
  lemma CancelMarksRow(st: ServiceState, taskId: string, now: Time, later: Time)
    requires Valid(st) && CancelTask(st, taskId, now).Ok?
    ensures var st' := CancelTask(st, taskId, now).value;
      Valid(st') && GetTask(st', taskId).Some? && GetTask(st', taskId).value.status == StatusCancelled &&
      GetTask(st', taskId).value.completedAt == Some(now) && CancelTask(st', taskId, later).Err?
  {
    var t := GetTask(st, taskId).value;
    var k :| 0 <= k < |st.rows| && st.rows[k] == t;
    var i := FirstIndex(st.rows, (x: TaskRecord) => x.id == t.id).value;
    var st' := CancelTask(st, taskId, now).value;
    assert st.rows[i].id == st.rows[k].id;
    assert i == k;
    assert st'.rows[i].taskId == taskId && st'.rows[i].id == st.rows[i].id;
    assert Valid(st');
    GetTaskAt(st', i);
  }

  /** As written, a cancel only touches the row. The worker stores its live status in the cache
      as "running" when it starts and, on seeing the cancel, returns without updating it; since a
      cached status wins, the task keeps being reported as running although its row says
      cancelled. */
  lemma CancelKeepsCachedRunning(st: ServiceState, taskId: string, now: Time)
    requires Valid(st) && GetTask(st, taskId).Some? && GetTask(st, taskId).value.status == StatusRunning
    requires taskId in st.cache && st.cache[taskId].status == StatusRunning
    ensures CancelTask(st, taskId, now).Ok?
    ensures var st' := CancelTask(st, taskId, now).value;
      GetTask(st', taskId).value.status == StatusCancelled &&
      GetTaskStatus(st', taskId).Ok? && GetTaskStatus(st', taskId).value.status == StatusRunning
  {
    CancelMarksRow(st, taskId, now, now);
  }

  /** The corrected cancel: the row is cancelled as before and, when the task has
      a cached runtime status, that status is marked cancelled too. */
  function CancelTaskSynced(st: ServiceState, taskId: string, now: Time): (r: Result<ServiceState, string>)
    ensures r.Err? <==> CancelTask(st, taskId, now).Err?
    ensures r.Ok? ==> r.value.rows == CancelTask(st, taskId, now).value.rows
    ensures r.Ok? ==> r.value.cache.Keys == st.cache.Keys
    ensures r.Ok? ==> forall k :: k in st.cache && k != taskId ==> r.value.cache[k] == st.cache[k]
  {
    match CancelTask(st, taskId, now)
    case Err(e) => Err(e)
    case Ok(st') =>
      if taskId in st'.cache then Ok(st'.(cache := st'.cache[taskId := st'.cache[taskId].(status := StatusCancelled)]))
      else Ok(st')
  }

  /** With the synced cancel, a cancelled task is reported as cancelled whether or not a runtime
      status was cached for it. */
  lemma CancelIsReported(st: ServiceState, taskId: string, now: Time)
    requires Valid(st) && CancelTaskSynced(st, taskId, now).Ok?
    ensures var st' := CancelTaskSynced(st, taskId, now).value;
      Valid(st') && GetTaskStatus(st', taskId).Ok? && GetTaskStatus(st', taskId).value.status == StatusCancelled
  {
    CancelMarksRow(st, taskId, now, now);
  }

  // ----- ListTasks: ORDER BY created_at DESC LIMIT limit OFFSET offset -----

  predicate SortedDesc(s: seq<TaskRecord>) {
    forall i, j :: 0 <= i < j < |s| ==> s[i].createdAt >= s[j].createdAt
  }

  /** Inserts `t` before the first row created no later than it. */
  function InsertDesc(t: TaskRecord, s: seq<TaskRecord>): (r: seq<TaskRecord>)
    requires SortedDesc(s)
    ensures SortedDesc(r) && multiset(r) == multiset(s) + multiset{t}
  {
    if |s| == 0 then [t]
    else if s[0].createdAt <= t.createdAt then [t] + s
    else
      var rest := InsertDesc(t, s[1..]);
      assert s == [s[0]] + s[1..];
      InsertKeepsOrder(s[0], rest, t, s[1..]);
      [s[0]] + rest
  }

  /** A row created later than `t` and than every row of `tail` stays in front of them. */
  lemma InsertKeepsOrder(head: TaskRecord, rest: seq<TaskRecord>, t: TaskRecord, tail: seq<TaskRecord>)
    requires SortedDesc(rest) && multiset(rest) == multiset(tail) + multiset{t}
    requires head.createdAt > t.createdAt && forall x :: x in tail ==> head.createdAt >= x.createdAt
    ensures SortedDesc([head] + rest)
  {
    var r := [head] + rest;
    forall j | 1 <= j < |r|
      ensures r[0].createdAt >= r[j].createdAt
    {
      var x := rest[j - 1];
      assert x in multiset(rest);
      assert x == t || x in multiset(tail);
    }
  }

  /** The rows newest first; rows created at the same instant keep their primary-key order. */
  function SortByCreatedDesc(s: seq<TaskRecord>): (r: seq<TaskRecord>)
    ensures SortedDesc(r) && multiset(r) == multiset(s) && |r| == |s|
  {
    if |s| == 0 then []
    else
      assert s == [s[0]] + s[1..];
      InsertDesc(s[0], SortByCreatedDesc(s[1..]))
  }

  /** Sorting neither adds nor drops rows. */
  lemma SortedMembers(s: seq<TaskRecord>)
    ensures forall x :: x in SortByCreatedDesc(s) ==> x in s
  {
    var r := SortByCreatedDesc(s);
    forall x | x in r
      ensures x in s
    {
      assert x in multiset(r);
    }
  }

  /** gorm's paging: a negative limit means no limit and a non-positive offset means none. */
  function Page(s: seq<TaskRecord>, limit: int, offset: int): (r: seq<TaskRecord>)
    ensures limit >= 0 ==> |r| <= limit
    ensures var o := if offset > 0 then offset else 0;
      o <= |s| ==> r == s[o..if limit >= 0 && o + limit <= |s| then o + limit else |s|]
    ensures offset >= |s| ==> r == []
    ensures forall i :: 0 <= i < |r| ==> r[i] in s
  {
    var o := if offset > 0 then offset else 0;
    if o >= |s| then []
    else s[o..if limit >= 0 && o + limit <= |s| then o + limit else |s|]
  }

  /** `ListTasks`: one page of the rows, newest first, and the total row count. The page is the
      window of the newest-first order that gorm's limit and offset select. */
  function ListTasks(st: ServiceState, limit: int, offset: int): (r: (seq<TaskRecord>, nat))
    ensures r.1 == |st.rows|
    ensures r.0 == Page(SortByCreatedDesc(st.rows), limit, offset)
    ensures SortedDesc(r.0)
    ensures limit >= 0 ==> |r.0| <= limit
    ensures forall i :: 0 <= i < |r.0| ==> r.0[i] in st.rows
  {
    var sorted := SortByCreatedDesc(st.rows);
    var page := Page(sorted, limit, offset);
    SortedMembers(st.rows);
    (page, |st.rows|)
  }

  /** Two consecutive pages of size `limit` make up the page of size `2 * limit` at the same
      offset: paging visits every row once, in order. */
  lemma ConsecutivePages(s: seq<TaskRecord>, limit: nat, offset: nat)
    ensures Page(s, limit, offset) + Page(s, limit, offset + limit) == Page(s, limit + limit, offset)
  {
  }
}
