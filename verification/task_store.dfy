/** The task store of the client (webui/src/store/useTaskStore.ts): the history list, the map of
    live task statuses, pagination, the status filter and the loading flag. */
module TaskStore {
  import opened Wrappers
  import opened Seqs
  import opened JsonValue
  import opened Types

  datatype Pagination = Pagination(page: int, pageSize: int, total: int, totalPages: int)

  datatype PaginationPatch = PaginationPatch(page: Option<int>, pageSize: Option<int>,
                                             total: Option<int>, totalPages: Option<int>)

  const InitialPagination: Pagination := Pagination(0, 20, 0, 0)

  datatype TaskStoreState = TaskStoreState(
    tasks: seq<MigrationTask>,
    activeTasks: map<string, TaskStatus>,
    pagination: Pagination,
    statusFilter: Option<string>,
    isLoadingTasks: bool)

  const InitialTaskStore: TaskStoreState := TaskStoreState([], map[], InitialPagination, None, false)

  /** A partial task: only the present fields are merged. */
  datatype TaskPatch = TaskPatch(
    id: Option<nat>,
    taskId: Option<string>,
    status: Option<string>,
    error: Option<string>,
    sourceFolders: Option<JsonText>,
    zimaosHost: Option<string>,
    zimaosUsername: Option<string>,
    basePath: Option<string>,
    totalFiles: Option<nat>,
    processedFiles: Option<nat>,
    failedFiles: Option<nat>,
    totalSize: Option<nat>,
    transferredSize: Option<nat>,
    progress: Option<real>,
    options: Option<JsonText>,
    createdAt: Option<Time>,
    startedAt: Option<Option<Time>>,
    completedAt: Option<Option<Time>>,
    updatedAt: Option<Time>)

  const EmptyTaskPatch: TaskPatch :=
    TaskPatch(None, None, None, None, None, None, None, None, None, None, None, None, None, None,
              None, None, None, None, None)

  /** `{ ...task, ...patch }`. */
  function MergeTask(t: MigrationTask, p: TaskPatch): MigrationTask {
    MigrationTask(
      p.id.GetOr(t.id), p.taskId.GetOr(t.taskId), p.status.GetOr(t.status), p.error.GetOr(t.error),
      p.sourceFolders.GetOr(t.sourceFolders), p.zimaosHost.GetOr(t.zimaosHost),
      p.zimaosUsername.GetOr(t.zimaosUsername), p.basePath.GetOr(t.basePath),
      p.totalFiles.GetOr(t.totalFiles), p.processedFiles.GetOr(t.processedFiles),
      p.failedFiles.GetOr(t.failedFiles), p.totalSize.GetOr(t.totalSize),
      p.transferredSize.GetOr(t.transferredSize), p.progress.GetOr(t.progress),
      p.options.GetOr(t.options), p.createdAt.GetOr(t.createdAt), p.startedAt.GetOr(t.startedAt),
      p.completedAt.GetOr(t.completedAt), p.updatedAt.GetOr(t.updatedAt))
  }

  /** `addTask`: the new task goes in front of the list. */
  function AddTask(s: TaskStoreState, t: MigrationTask): (r: TaskStoreState)
    ensures |r.tasks| == |s.tasks| + 1 && r.tasks[0] == t && r.tasks[1..] == s.tasks
    ensures r.activeTasks == s.activeTasks && r.pagination == s.pagination && r.statusFilter == s.statusFilter &&
            r.isLoadingTasks == s.isLoadingTasks
  {
    s.(tasks := [t] + s.tasks)
  }

  /** `updateTask`: every task with the given `task_id` gets the patch merged in; the others and
      the length of the list stay as they were. */
  function UpdateTask(tasks: seq<MigrationTask>, taskId: string, p: TaskPatch): (r: seq<MigrationTask>)
    ensures |r| == |tasks|
    ensures forall i :: 0 <= i < |tasks| && tasks[i].taskId != taskId ==> r[i] == tasks[i]
    ensures forall i :: 0 <= i < |tasks| && tasks[i].taskId == taskId ==> r[i] == MergeTask(tasks[i], p)
  {
    seq(|tasks|, i requires 0 <= i < |tasks| =>
      if tasks[i].taskId == taskId then MergeTask(tasks[i], p) else tasks[i])
  }

  /** An empty patch, or a patch for an id no task has, leaves the list unchanged. */
  lemma UpdateTaskNoop(tasks: seq<MigrationTask>, taskId: string, p: TaskPatch)
    requires p == EmptyTaskPatch || forall i :: 0 <= i < |tasks| ==> tasks[i].taskId != taskId
    ensures UpdateTask(tasks, taskId, p) == tasks
  {
  }

  /** `getTaskById`: the first task with that `task_id`, or nothing. */
  function GetTaskById(tasks: seq<MigrationTask>, taskId: string): (r: Option<MigrationTask>)
    ensures r.Some? ==> r.value.taskId == taskId &&
                        exists i :: 0 <= i < |tasks| && tasks[i] == r.value &&
                          forall j :: 0 <= j < i ==> tasks[j].taskId != taskId
    ensures r.None? <==> forall i :: 0 <= i < |tasks| ==> tasks[i].taskId != taskId
  {
    Find(tasks, (t: MigrationTask) => t.taskId == taskId)
  }

  /** A task just added is what the lookup by its id returns, shadowing older copies. */
  lemma AddedTaskIsFound(s: TaskStoreState, t: MigrationTask)
    ensures GetTaskById(AddTask(s, t).tasks, t.taskId) == Some(t)
  {
    assert AddTask(s, t).tasks[0] == t;
  }

  /** After an update that keeps the id and sets the status, the lookup sees the new status. */
  lemma UpdateThenGet(tasks: seq<MigrationTask>, taskId: string, p: TaskPatch)
    requires p.taskId.None? && p.status.Some?
    requires GetTaskById(tasks, taskId).Some?
    ensures GetTaskById(UpdateTask(tasks, taskId, p), taskId).Some?
    ensures GetTaskById(UpdateTask(tasks, taskId, p), taskId).value.status == p.status.value
  {
    var u := UpdateTask(tasks, taskId, p);
    var i :| 0 <= i < |tasks| && tasks[i].taskId == taskId;
    assert u[i].taskId == taskId;
    var found := GetTaskById(u, taskId);
    var k :| 0 <= k < |u| && u[k] == found.value;
    assert u[k].taskId == taskId;
    assert tasks[k].taskId == taskId;
  }

  /** `setActiveTaskStatus`. */
  function SetActiveTaskStatus(s: TaskStoreState, taskId: string, st: TaskStatus): (r: TaskStoreState)
    ensures r.tasks == s.tasks && r.pagination == s.pagination && r.statusFilter == s.statusFilter &&
            r.isLoadingTasks == s.isLoadingTasks
    ensures r.activeTasks.Keys == s.activeTasks.Keys + {taskId}
    ensures r.activeTasks[taskId] == st
    ensures forall id :: id in s.activeTasks && id != taskId ==> r.activeTasks[id] == s.activeTasks[id]
  {
    s.(activeTasks := s.activeTasks[taskId := st])
  }

  /** `getActiveTaskStatus`: the status stored under `taskId`, if any. */
  function GetActiveTaskStatus(s: TaskStoreState, taskId: string): (r: Option<TaskStatus>)
    ensures r.Some? <==> taskId in s.activeTasks
    ensures r.Some? ==> r.value == s.activeTasks[taskId]
  {
    if taskId in s.activeTasks then Some(s.activeTasks[taskId]) else None
  }

  /** `removeActiveTask`. */
  function RemoveActiveTask(s: TaskStoreState, taskId: string): (r: TaskStoreState)
    ensures r.tasks == s.tasks && r.pagination == s.pagination && r.statusFilter == s.statusFilter &&
            r.isLoadingTasks == s.isLoadingTasks
    ensures r.activeTasks.Keys == s.activeTasks.Keys - {taskId}
    ensures forall id :: id in r.activeTasks ==> r.activeTasks[id] == s.activeTasks[id]
  {
    s.(activeTasks := s.activeTasks - {taskId})
  }

  /** `clearActiveTasks`. */
  function ClearActiveTasks(s: TaskStoreState): (r: TaskStoreState)
    ensures forall id :: GetActiveTaskStatus(r, id).None?
    ensures r.tasks == s.tasks && r.pagination == s.pagination && r.statusFilter == s.statusFilter &&
            r.isLoadingTasks == s.isLoadingTasks
  {
    s.(activeTasks := map[])
  }

  /** Reading a status back after storing it gives it back, and every other id reads as before. */
  lemma SetThenGet(s: TaskStoreState, taskId: string, st: TaskStatus, other: string)
    ensures GetActiveTaskStatus(SetActiveTaskStatus(s, taskId, st), taskId) == Some(st)
    ensures other != taskId ==>
      GetActiveTaskStatus(SetActiveTaskStatus(s, taskId, st), other) == GetActiveTaskStatus(s, other)
  {
  }

  /** Removing an id makes it unknown and leaves every other id as it was. */
  lemma RemoveThenGet(s: TaskStoreState, taskId: string, other: string)
    ensures GetActiveTaskStatus(RemoveActiveTask(s, taskId), taskId).None?
    ensures other != taskId ==>
      GetActiveTaskStatus(RemoveActiveTask(s, taskId), other) == GetActiveTaskStatus(s, other)
  {
  }

  /** `setPagination`: a shallow merge. */
  function SetPagination(s: TaskStoreState, p: PaginationPatch): (r: TaskStoreState)
    ensures r.pagination.page == p.page.GetOr(s.pagination.page)
    ensures r.pagination.pageSize == p.pageSize.GetOr(s.pagination.pageSize)
    ensures r.pagination.total == p.total.GetOr(s.pagination.total)
    ensures r.pagination.totalPages == p.totalPages.GetOr(s.pagination.totalPages)
    ensures r.tasks == s.tasks && r.activeTasks == s.activeTasks && r.statusFilter == s.statusFilter &&
            r.isLoadingTasks == s.isLoadingTasks
  {
    var q := s.pagination;
    s.(pagination := Pagination(
      if p.page.Some? then p.page.value else q.page,
      if p.pageSize.Some? then p.pageSize.value else q.pageSize,
      if p.total.Some? then p.total.value else q.total,
      if p.totalPages.Some? then p.totalPages.value else q.totalPages))
  }

  /** Two patches in a row: each field takes the later patch's value when it has one, and the
      earlier's otherwise. */
  function ThenPatch(first: PaginationPatch, second: PaginationPatch): PaginationPatch {
    PaginationPatch(if second.page.Some? then second.page else first.page,
                    if second.pageSize.Some? then second.pageSize else first.pageSize,
                    if second.total.Some? then second.total else first.total,
                    if second.totalPages.Some? then second.totalPages else first.totalPages)
  }

  /** Two `setPagination` calls act as one call with the two patches merged, later values
      winning; the empty patch changes nothing, and a patch applied twice acts once. */
  lemma SetPaginationCompose(s: TaskStoreState, first: PaginationPatch, second: PaginationPatch)
    ensures SetPagination(SetPagination(s, first), second) == SetPagination(s, ThenPatch(first, second))
    ensures SetPagination(s, PaginationPatch(None, None, None, None)) == s
    ensures SetPagination(SetPagination(s, first), first) == SetPagination(s, first)
  {
  }

  /** Setting only the page keeps the page size of the initial state, 20. */
  lemma SetPageKeepsSize(page: int)
    ensures SetPagination(InitialTaskStore, PaginationPatch(Some(page), None, None, None)).pagination ==
            Pagination(page, 20, 0, 0)
  {
  }

  /** `setTasks`: the list is replaced and every other field kept. */
  function SetTasks(s: TaskStoreState, tasks: seq<MigrationTask>): (r: TaskStoreState)
    ensures r.tasks == tasks
    ensures r.activeTasks == s.activeTasks && r.pagination == s.pagination && r.statusFilter == s.statusFilter &&
            r.isLoadingTasks == s.isLoadingTasks
  {
    s.(tasks := tasks)
  }

  /** `setStatusFilter`: the filter is replaced and every other field kept. */
  function SetStatusFilter(s: TaskStoreState, f: Option<string>): (r: TaskStoreState)
    ensures r.statusFilter == f
    ensures r.tasks == s.tasks && r.activeTasks == s.activeTasks && r.pagination == s.pagination &&
            r.isLoadingTasks == s.isLoadingTasks
  {
    s.(statusFilter := f)
  }

  /** `setIsLoadingTasks`: the flag is replaced and every other field kept. */
  function SetIsLoadingTasks(s: TaskStoreState, loading: bool): (r: TaskStoreState)
    ensures r.isLoadingTasks == loading
    ensures r.tasks == s.tasks && r.activeTasks == s.activeTasks && r.pagination == s.pagination &&
            r.statusFilter == s.statusFilter
  {
    s.(isLoadingTasks := loading)
  }
}
