/** The records exchanged between the browser client and the server (webui/src/types/index.ts),
    which mirror the server's JSON output. Times are abstract instants (`Time`); the fractional
    progress values are carried as `real` and never computed with. */
module Types {
  import opened Wrappers
  import opened JsonValue

  type Time = int

  /** One folder of a scan. `children` is optional and, when present, recursive. */
  datatype FolderInfo = FolderInfo(
    path: string,
    name: string,
    size: int,
    fileCount: int,
    modifiedTime: Time,
    children: Option<seq<FolderInfo>>)

  datatype VolumeInfo = VolumeInfo(name: string, path: string, folders: seq<FolderInfo>)

  /** A scan's volumes are `None` when the server's slice was never appended to: Go's nil slice,
      which the encoder writes as `"volumes": null`. */
  datatype ScanResult = ScanResult(volumes: Option<seq<VolumeInfo>>, scannedAt: Time)

  /** The four independent toggles of a migration. */
  datatype MigrationOptions = MigrationOptions(
    overwriteExisting: bool,
    skipErrors: bool,
    preserveTimes: bool,
    includeRecycle: bool)

  /** The JSON object of a set of options, as both the client's `JSON.stringify` and the server's
      `json.Marshal` write it. */
  function OptionsToJson(o: MigrationOptions): (j: Json)
    ensures j.JObject? && j.fields.Keys == {"overwrite_existing", "skip_errors", "preserve_times", "include_recycle"}
    ensures j.fields["overwrite_existing"] == JBool(o.overwriteExisting)
    ensures j.fields["skip_errors"] == JBool(o.skipErrors)
    ensures j.fields["preserve_times"] == JBool(o.preserveTimes)
    ensures j.fields["include_recycle"] == JBool(o.includeRecycle)
  {
    JObject(map["overwrite_existing" := JBool(o.overwriteExisting), "skip_errors" := JBool(o.skipErrors),
                "preserve_times" := JBool(o.preserveTimes), "include_recycle" := JBool(o.includeRecycle)])
  }

  /** One boolean field of Go's `json.Unmarshal` into the options struct: a missing or null member
      keeps the zero value `false`; a member of another type is a decoding error. */
  function BoolField(j: Json, key: string): Result<bool, string> {
    match Member(j, key)
    case None => Ok(false)
    case Some(JNull) => Ok(false)
    case Some(JBool(b)) => Ok(b)
    case Some(_) => Err("cannot unmarshal into bool field " + key)
  }

  /** Go's `json.Unmarshal` of a JSON value into the options struct. `null` decodes to all-false;
      any other non-object is an error. */
  function OptionsFromJson(j: Json): (r: Result<MigrationOptions, string>)
    ensures j.JNull? ==> r == Ok(MigrationOptions(false, false, false, false))
    ensures !j.JNull? && !j.JObject? ==> r.Err?
  {
    if j.JNull? then Ok(MigrationOptions(false, false, false, false))
    else if !j.JObject? then Err("cannot unmarshal non-object into options")
    else
      match (BoolField(j, "overwrite_existing"), BoolField(j, "skip_errors"),
             BoolField(j, "preserve_times"), BoolField(j, "include_recycle"))
      case (Ok(a), Ok(b), Ok(c), Ok(d)) => Ok(MigrationOptions(a, b, c, d))
      case _ => Err("cannot unmarshal options")
  }

  /** Decoding what was encoded gives the options back. */
  lemma OptionsRoundTrip(o: MigrationOptions)
    ensures OptionsFromJson(OptionsToJson(o)) == Ok(o)
  {
  }

  /** A task row as the client receives it: the server record without its password. */
  datatype MigrationTask = MigrationTask(
    id: nat,
    taskId: string,
    status: string,
    error: string,
    sourceFolders: JsonText,
    zimaosHost: string,
    zimaosUsername: string,
    basePath: string,
    totalFiles: nat,
    processedFiles: nat,
    failedFiles: nat,
    totalSize: nat,
    transferredSize: nat,
    progress: real,
    options: JsonText,
    createdAt: Time,
    startedAt: Option<Time>,
    completedAt: Option<Time>,
    updatedAt: Time)

  /** The live snapshot of a running task. Transfer counters (processed/transferred) and
      verification counters (verifying/verifyFailed) are separate fields. */
  datatype TaskStatus = TaskStatus(
    taskId: string,
    status: string,
    currentFile: string,
    currentFileSize: nat,
    currentFileTransferred: nat,
    currentFileProgress: real,
    speed: int,
    processedFiles: nat,
    totalFiles: nat,
    transferredSize: nat,
    totalSize: nat,
    progress: real,
    failedFiles: nat,
    verifyingFiles: nat,
    verifyFailedFiles: nat,
    startedAt: Time,
    updatedAt: Time,
    sourceFolders: seq<string>,
    zimaosHost: string,
    basePath: string,
    error: string)

  /** A device answering the discovery broadcast. */
  datatype ZimaOSDevice = ZimaOSDevice(
    deviceModel: string,
    deviceName: string,
    hash: string,
    initialized: bool,
    lanIpv4: seq<string>,
    osVersion: string,
    port: int,
    requestIp: string,
    ip: string,
    imageUrl: string)

  /** The medium class of a storage target. */
  datatype StorageType = SYSTEM | HDD | SSD | USB | NETWORK

  /** The extension attributes of a storage target; each may be missing from the response. */
  datatype StorageExtensions = StorageExtensions(health: Option<bool>, size: Option<int>, used: Option<int>)

  datatype StorageDevice = StorageDevice(
    name: string,
    path: string,
    kind: StorageType,
    font: Option<string>,
    extensions: Option<StorageExtensions>)

  /** The four wizard steps, in order. */
  datatype WorkflowStep = Scan | Select | Config | Migration

  /** The identifier a step is persisted and compared under. */
  function StepId(step: WorkflowStep): string {
    match step
    case Scan => "scan"
    case Select => "select"
    case Config => "config"
    case Migration => "migration"
  }
}
