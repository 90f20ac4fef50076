/** The persisted migration task (models/migration_task.go): one database row per task, its
    status vocabulary, and the JSON view clients receive. */
module TaskModel {
  import opened Wrappers
  import opened JsonValue
  import Types

  const StatusPending: string := "pending"
  const StatusRunning: string := "running"
  const StatusVerifying: string := "verifying"
  const StatusPaused: string := "paused"
  const StatusCompleted: string := "completed"
  const StatusFailed: string := "failed"
  const StatusCancelled: string := "cancelled"

  const AllStatuses: seq<string> :=
    [StatusPending, StatusRunning, StatusVerifying, StatusPaused, StatusCompleted, StatusFailed, StatusCancelled]

  /** The seven status values are pairwise distinct. */
  lemma StatusesDistinct()
    ensures |AllStatuses| == 7
    ensures forall i, j :: 0 <= i < j < |AllStatuses| ==> AllStatuses[i] != AllStatuses[j]
  {
  }

  /** One task row. `error` is not a column of the record as declared; the service reads such a
      field, so the model carries it, and nothing in this core ever writes it. Counters start
      at 0; the start and completion times are optional. */
  datatype TaskRecord = TaskRecord(
    id: nat,
    taskId: string,
    status: string,
    sourceFolders: JsonText,
    zimaosHost: string,
    zimaosUsername: string,
    zimaosPassword: string,
    basePath: string,
    totalFiles: nat,
    processedFiles: nat,
    failedFiles: nat,
    totalSize: nat,
    transferredSize: nat,
    progress: real,
    options: JsonText,
    createdAt: Types.Time,
    startedAt: Option<Types.Time>,
    completedAt: Option<Types.Time>,
    updatedAt: Types.Time,
    error: string)

  /** A freshly created row: status pending, every counter 0, progress 0, never started. */
  function NewRecord(id: nat, taskId: string, sourceFolders: JsonText, host: string, username: string,
                     password: string, basePath: string, options: JsonText, now: Types.Time): (t: TaskRecord)
    ensures t.taskId == taskId && t.status == StatusPending && t.progress == 0.0
    ensures t.totalFiles == 0 && t.processedFiles == 0 && t.failedFiles == 0
    ensures t.totalSize == 0 && t.transferredSize == 0
    ensures t.startedAt.None? && t.completedAt.None? && t.createdAt == now && t.updatedAt == now
    ensures t.zimaosPassword == password && t.sourceFolders == sourceFolders && t.options == options
  {
    TaskRecord(id, taskId, StatusPending, sourceFolders, host, username, password, basePath,
               0, 0, 0, 0, 0, 0.0, options, now, None, None, now, "")
  }

  /** The JSON view of a row; the password is tagged `json:"-"` and never leaves the server. */
  function ToClientView(t: TaskRecord): (v: Types.MigrationTask)
    ensures v.taskId == t.taskId && v.status == t.status && v.zimaosHost == t.zimaosHost
    ensures v.processedFiles == t.processedFiles && v.totalFiles == t.totalFiles
    ensures v.startedAt == t.startedAt && v.completedAt == t.completedAt
  {
    Types.MigrationTask(t.id, t.taskId, t.status, t.error, t.sourceFolders, t.zimaosHost,
                        t.zimaosUsername, t.basePath, t.totalFiles, t.processedFiles, t.failedFiles,
                        t.totalSize, t.transferredSize, t.progress, t.options, t.createdAt,
                        t.startedAt, t.completedAt, t.updatedAt)
  }

  /** Nothing a client receives depends on the stored password. */
  lemma ViewIgnoresPassword(t: TaskRecord, other: string)
    ensures ToClientView(t.(zimaosPassword := other)) == ToClientView(t)
  {
  }
}
