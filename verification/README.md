# A verified model of the stoz migration core

stoz moves shared folders from a Synology NAS to a ZimaOS device. A Go server scans the NAS volumes and lists their shared folders. It finds ZimaOS devices on the local network, keeps migration tasks in a table and runs each task in a worker. The worker logs in to the device, walks the chosen folders, creates the remote folders and uploads file by file, with retries, pausing and cancellation. A React client walks the user through four steps: scan, select, configure and migrate. It keeps a history of tasks and follows a running task until it ends.

This project models the decision logic of that core in Dafny and proves what it promises. Everything that touches the outside world becomes a parameter: the clock, generated ids, the environment, the file system, network answers, request outcomes and user confirmations. The file system is an immutable tree. The task table is a sequence of rows and the runtime status cache is a map. Each client store and page handler is a pure step function from a state and an outcome to the next state and the request it sent.

One Dafny module per source component:

| module | models |
|---|---|
| `Wrappers`, `Seqs`, `Text`, `JsonValue` | optional values and results; sequence helpers; Go's `strconv.Atoi`, `filepath.Base` and `filepath.Join`; a small JSON value type |
| `TaskModel`, `Types` | the persisted task row and status vocabulary; the records exchanged with the client |
| `Config` | environment-driven configuration with defaults |
| `MigrationService` | task creation, lookup, the status merge of cache and table, cancel, the ordered and paged list |
| `MigrationHandler` | request binding, gates and status codes of the migration endpoints |
| `Routes` | the route table, gin's trailing-slash redirect, the single-page-app fallback, and the reading of query parameters |
| `MigrationWorker` | the task run: options, folder list, scan, per-file loop, pause gate, retries, failure and completion writes |
| `FileTree`, `Scanner` | the pruned directory walk, the scan cache, volume and shared-folder listing, folder details |
| `ZimaosClient` | login token extraction, folder-creation classification, file lookup, partial download, progress and cancellation readers |
| `Discovery` | interface and address filtering, the IPv4 broadcast address, de-duplication of replies |
| `ApiClient`, `ApiRetry` | the client's request envelope, paths and bodies; retry with capped exponential backoff |
| `AppStore`, `TaskStore`, `TaskRecovery` | the client stores and the recovery redirect |
| `Wizard`, `SelectPage`, `ConfigPage`, `DeviceConfigDialog`, `StorageSelector` | the wizard's state machine, step indicator and its configuration pages |
| `HistoryPage`, `MonitorPages`, `TaskProgress`, `StatusBadge` | the history list, the two pages that follow a task, the progress card and the status badge |

## Model

| member | source | states |
|---|---|---|
| Types.OptionsToJson | service/migration_service.go:45-50 | the options object has exactly the four members `overwrite_existing`, `skip_errors`, `preserve_times` and `include_recycle`, each holding the matching flag as a JSON boolean |
| Types.OptionsFromJson | worker/migration_worker.go:97-98 | decoding `null` gives all-false options and any value that is neither `null` nor an object is a decoding error |
| Types.OptionsRoundTrip | service/migration_service.go:65 | options stored by the service decode back, in the worker, to exactly the same options |
| JsonValue.StringArray | service/migration_service.go:70 | the encoded folder list is an array of the same length whose items are the folders as JSON strings, in order |
| JsonValue.DecodeStringList | service/migration_service.go:111-114 | an array of strings decodes item by item in order, and anything that is not a parsed array decodes to the empty list |
| JsonValue.StringListRoundTrip | worker/migration_worker.go:106-108 | a folder list written by the service is read back by the worker unchanged |
| TaskModel.StatusesDistinct | models/migration_task.go:54-62 | the seven task statuses are seven pairwise different strings |
| TaskModel.NewRecord | service/migration_service.go:74-85 | a new row is pending, with every counter and the progress at zero, never started or completed, created and updated at the given time, and holds the given password, folders and options |
| TaskModel.ToClientView | models/migration_task.go:12-32 | the JSON view carries the row's id, status, host, counters and start and completion times |
| TaskModel.ViewIgnoresPassword | models/migration_task.go:19 | the JSON view of a row does not depend on the stored password at all |
| MigrationService.GetTask | service/migration_service.go:95-101 | the row found carries the requested `task_id` and is a stored row; nothing is found exactly when no stored row has that id |
| MigrationService.GetTaskAt | service/migration_service.go:95-101 | in a table whose ids are unique, looking up a stored row's id finds that very row |
| MigrationService.CreateTask | service/migration_service.go:62-93 | creation fails exactly when the id is already taken; otherwise one row is appended, pending, with progress 0, the given password, and the folders and options stored so that they decode back to the given ones; the cache is untouched |
| MigrationService.CreateTaskValid | models/migration_task.go:13-14 | creating a task keeps primary keys and task ids unique, and the new task is then found, pending, under its id |
| MigrationService.GetTaskStatus | service/migration_service.go:103-146 | an unknown id is an error; the folders, host, base path and error always come from the row; with a cached status the status and counters are the cached ones, otherwise they are the row's |
| MigrationService.UpdateTaskStatus | service/migration_service.go:148-150 | the cache holds the new status under the id, no other entry changes, and the table is untouched |
| MigrationService.LastWriteWins | service/migration_service.go:117-125 | two cache writes for a task act as the second alone, and the status read back has the second write's status and counters |
| MigrationService.SaveTask | service/migration_service.go:152-154 | the row with the same primary key is replaced by the saved one, with a new update time, and every other row is unchanged; a row whose key is not stored is appended |
| MigrationService.CancelTask | service/migration_service.go:171-185 | an unknown id fails; an existing task is refused exactly when it is completed or cancelled; a successful cancel leaves the cache alone and the row count unchanged |
| MigrationService.SaveFoundRow | service/migration_service.go:152-154 | saving a row with the key and task id of the stored row for that task keeps the table valid, and the task is then found exactly as saved |
| MigrationService.CancelMarksRow | service/migration_service.go:180-184 | after a cancel the table is still valid, the row reads as cancelled with the completion time set, and a second cancel is refused |
| MigrationService.CancelKeepsCachedRunning | service/migration_service.go:117-125 | a running task whose live status is cached is cancelled in its row, yet the status read back still says running |
| MigrationService.CancelTaskSynced | service/migration_service.go:171-185 | the same refusals and the same rows as the cancel above, with the cached status of that task (if any) marked cancelled and every other cache entry unchanged |
| MigrationService.CancelIsReported | service/migration_service.go:103-146 | with the synced cancel, the status read back after a cancel is cancelled whether or not a live status was cached |
| MigrationService.InsertDesc | service/migration_service.go:164 | inserting a row into a list ordered newest first keeps it so ordered and adds exactly that row |
| MigrationService.SortByCreatedDesc | service/migration_service.go:164 | the rows are ordered newest first and form a permutation of the input |
| MigrationService.SortedMembers | service/migration_service.go:164 | every sorted row is an input row |
| MigrationService.Page | service/migration_service.go:164 | a page holds at most `limit` rows when the limit is non-negative, is the slice of the input that starts at the offset, and is empty past the end |
| MigrationService.ListTasks | service/migration_service.go:156-169 | the count is the number of stored rows, and the page is exactly the window of `limit` rows from `offset` of the rows ordered newest first (the whole rest for a negative limit): it is sorted, holds at most `limit` rows, and only stored rows |
| MigrationService.ConsecutivePages | service/migration_service.go:164 | two consecutive pages of one size are the page of twice that size at the same offset, so paging visits each row once and in order |
| Config.GetEnv | config/config.go:82-87 | a set, non-empty variable gives its value; an unset or empty one gives the default |
| Config.GetEnvEmptyOnlyByDefault | config/config.go:82-87 | the result is empty exactly when the default is empty and the variable is unset or empty |
| Config.GetEnvAsInt | config/config.go:89-95 | a variable `strconv.Atoi` accepts gives the number it reads; an unset variable or one it rejects gives the default |
| Config.GetEnvAsIntReads | config/config.go:89-95 | any int64 written in decimal is read back as itself |
| Text.AtoiIntToString | config/config.go:91 | `strconv.Atoi` reads every decimal int64 back as the same number |
| Config.ParseBool | config/config.go:102 | exactly the six spellings of true are read as true and exactly the six spellings of false as false |
| Config.GetEnvAsBool | config/config.go:97-107 | an accepted spelling gives its value; an unset, empty or unrecognised variable gives the default |
| Config.GetEnvAsBoolReads | config/config.go:97-107 | `true`/`false` in lower, upper and title case are read back as the boolean they spell |
| Config.WrapInt64 | config/config.go:64 | the result is an int64 congruent to the input modulo 2^64, and an int64 input is kept |
| Config.Load | config/config.go:50-80 | the scan cache lifetime is the seconds variable times a second with int64 wrap-around, and retries, verification and port come from their variables or defaults |
| Config.LoadEmptyIsDefaults | config/config.go:53-77 | with no variables set every setting takes its documented default |
| Config.LoadIgnoresBadValues | config/config.go:89-107 | an unparseable retry count or verification flag counts as unset, giving 3 retries and verification on |
| Config.LargeTtlWrapsNegative | config/config.go:64 | a cache lifetime between 9223372037 and 18446744073 seconds wraps around to a negative duration |
| Routes.MatchApi | main.go:62-75 | an API route is only ever matched on a path under `/api/v1/` |
| Routes.Route | main.go:41-90 | API routes win, then embedded assets for GET or HEAD under `/assets/`. A path with no route is redirected to its trailing-slash twin, 301 for GET and 307 otherwise and never for `/`, exactly when gin's tree walk recommends the twin. That is when the twin has a route of the same method, or when a GET or POST path ends in `/` right after `/api/v1/migration/` or after the task id below it. Otherwise the app page is served exactly for GETs outside `/api/`, and everything else is not found |
| Routes.SlashTwin | main.go:41 | the twin of a path ending in `/` (other than `/` itself) is the path without it, and of any other path the path with `/` added |
| Routes.RedirectLands | main.go:69-74 | following a redirect reaches an API handler or an asset exactly when the twin has a route; otherwise the path was one of the loose cases under `/api/v1/migration/`, and the twin is not found or redirected again, never the app page |
| Routes.StatusParentRedirectsNowhere | main.go:69-71 | GET `/api/v1/migration/` gets a 301 to `/api/v1/migration`, which has no GET route and is not found |
| Routes.ControlParentRedirectsNowhere | main.go:69-74 | POST `/api/v1/migration/<id>/` with a non-empty id gets a 307 to `/api/v1/migration/<id>`, which has no POST route and is not found |
| Routes.ListTrailingSlashRedirects | main.go:71 | a GET of the list path with a trailing slash is redirected, 301, to the list path |
| Routes.ApiNeverFallsBackToApp | main.go:84-89 | no path under `/api/` and no method other than GET is ever answered with the app page |
| Routes.SplitJoin | main.go:70-74 | joining slash-free segments with `/` and splitting again gives the segments back |
| ApiClient.StatusPath | webui/src/api/client.ts:76-78 | the status path is `/migration/` followed by the task id as given, unescaped |
| ApiClient.ControlName | webui/src/api/client.ts:89-105 | each action's name is one non-empty path segment with no `?` |
| ApiClient.ControlPath | webui/src/api/client.ts:89-105 | a control path is the task's status path with the action as one more segment |
| ApiClient.ControlPathsDistinct | webui/src/api/client.ts:89-105 | pause, resume and cancel of one task go to three different paths |
| Routes.StatusUrlSegments | webui/src/api/client.ts:77-79 | the status URL of a slash-free task id is the API prefix followed by the two segments `migration` and the id |
| Routes.ControlUrlSegments | webui/src/api/client.ts:90-106 | a control URL is the API prefix followed by `migration`, the id and the control's name |
| Routes.TaskSegmentsRoute | main.go:70-74 | the route table maps those segments to the status handler with a non-empty id, and to the pause, resume and cancel handlers with any id, the empty one included |
| Routes.ClientStatusPathRoutes | main.go:70 | the status URL the browser builds for a non-empty, slash-free id reaches the status handler with the same id |
| Routes.ClientControlPathRoutes | main.go:72-74 | the pause, resume and cancel URLs the browser builds reach their handlers with the same id, even an empty one |
| Routes.RouteOfApi | main.go:62-75 | a path the API table matches is answered by that API handler, whatever else is present |
| Routes.RoutedStatusIdNonEmpty | main.go:70 | the status handler is never handed an empty task id, so its check at `handler/migration_handler.go:91-95` is never reached |
| Routes.EmptyControlIdRouted | handler/migration_handler.go:136-141 | a control URL with an empty id reaches its handler with the empty id, so the cancel handler's "Task ID is required" answer is reachable |
| Routes.SplitUrl | main.go:85 | a URL without `?` is all path; otherwise the path holds no `?` and path, `?` and query make up the URL |
| Routes.RouteRequest | main.go:41 | a request URL is routed by its path; a redirect's location is the URL with the path replaced by its twin, the query kept |
| Routes.SplitUrlOf | main.go:85 | a `?`-free path followed by `?` and a query splits back into that path and that query |
| Routes.RedirectKeepsQuery | main.go:41 | a redirected request with a query is sent to the twin with the same query |
| Routes.Unescape | handler/migration_handler.go:108-109 | unescaping never lengthens the text, and text without `%` or `+` is its own unescaping |
| Routes.UnescapePercentEncode | handler/migration_handler.go:108-109 | text whose characters are all bytes, written with every byte percent-encoded, unescapes back to itself |
| Routes.PieceEntry | handler/migration_handler.go:108-109 | a piece is dropped exactly when it is empty, holds `;`, or its key or value does not unescape; a kept piece holds its unescaped key and value |
| Routes.FirstValue | handler/migration_handler.go:108-109 | a value is found exactly when some kept entry has the key, and then it is the value of the first such entry |
| Routes.QueryParam | handler/migration_handler.go:108-109 | of the `&`-separated pieces that `url.ParseQuery` keeps (non-empty, no `;`, key and value unescape), the first whose unescaped key is the one asked for gives its unescaped value; nothing is found exactly when none has it |
| Routes.PieceParts | handler/migration_handler.go:108-109 | `key=value` with an `=`-free key is read back as that key and that value |
| Routes.PieceEntryOf | handler/migration_handler.go:108-109 | `key=value` with a key that needs no unescaping is kept as that key and the value's unescaping |
| Routes.SinglePiece | handler/migration_handler.go:108-109 | a one-piece query answers its piece's key with its value |
| Routes.FirstValueAtHead | handler/migration_handler.go:108-109 | the first entry answers for its own key |
| Routes.FirstValueAtSecond | handler/migration_handler.go:108-109 | the second entry answers for its key when the first does not hold that key |
| Routes.TwoPieces | handler/migration_handler.go:108-109 | in a two-piece query with distinct keys each piece's key gives that piece's value |
| Routes.EscapedLimitIsDecoded | handler/migration_handler.go:108-112 | the query `limit=%35` is read as the limit 5 |
| Routes.ListUrlParts | webui/src/api/client.ts:81-88 | the list URL splits into the path `/api/v1/migrations` and the two-piece query |
| Routes.ListQuerySplit | webui/src/api/client.ts:87 | that query cuts at `&` into the `limit` piece and the `offset` piece |
| Routes.ListQueryParams | webui/src/api/client.ts:87 | each of `limit` and `offset` is read back from that query as written |
| Routes.ListPathRoutes | main.go:71 | the list path reaches the list handler |
| Routes.ListQueryRoundTrip | handler/migration_handler.go:107-119 | the list request the browser sends reaches the list handler, which reads back a positive limit and a non-negative offset unchanged |
| MigrationHandler.RequiredString | handler/migration_handler.go:24-26 | a required string binds exactly when the member is a non-empty JSON string, and binds to that string |
| MigrationHandler.RequiredStringList | handler/migration_handler.go:49 | a bound folder list is the member's array of strings, and an absent or null member fails the rule |
| MigrationHandler.BindCreate | handler/migration_handler.go:48-62 | a malformed body or a non-object fails to bind, and a bound request has a non-empty host, username, password and base path |
| MigrationHandler.CreateBodyBinds | webui/src/api/client.ts:56-75 | the body the browser sends for a migration binds back to the same request whenever its required strings are non-empty |
| MigrationHandler.CreateMigration | handler/migration_handler.go:57-88 | a binding failure is a 400 and an empty folder list the 400 `At least one source folder is required`; a failure changes nothing and queues nothing; a success returns and queues the new id, stored by the service from the bound request |
| MigrationHandler.CreatedTaskIsPending | handler/migration_handler.go:69-87 | after a successful create the table is valid and the returned id finds a pending task |
| MigrationHandler.GetMigrationStatus | handler/migration_handler.go:90-105 | an empty id is the 400 `Task ID is required`, an unknown id the 404 `Task not found`, and any known id succeeds with that task's status |
| MigrationHandler.NormalizeLimit | handler/migration_handler.go:108-114 | the limit is positive: the parsed parameter when it is a positive int64, and 20 otherwise, a missing parameter included |
| MigrationHandler.NormalizeOffset | handler/migration_handler.go:109-119 | the offset is non-negative: the parsed parameter when it is a non-negative int64, and 0 otherwise |
| MigrationHandler.NormalizeIdempotent | handler/migration_handler.go:111-119 | a limit or offset the handler settled on, written back into the query, is read as itself |
| MigrationHandler.ListMigrations | handler/migration_handler.go:107-134 | the reply carries the limit and offset actually used, the total row count, and the client view of exactly the service's page, never more rows than the limit |
| MigrationHandler.CancelMigration | handler/migration_handler.go:136-150 | an empty id is the 400 `Task ID is required`; the reply succeeds exactly when the service's `CancelTask` accepts, replying `Task cancelled` with the state that cancel leaves; a refusal is the 500 carrying the service's error and changes nothing |
| MigrationHandler.CancelThenStatusRunning | handler/migration_handler.go:136-150 | a running task with a cached running status is cancelled with `Task cancelled`, and the status request then still reports it running |
| MigrationHandler.CancelMigrationSynced | handler/migration_handler.go:136-150 | the corrected handler answers as the handler does and leaves the state of the synced cancel |
| MigrationHandler.SyncedCancelThenStatus | handler/migration_handler.go:136-150 | after a successful corrected cancel the status request for that task reports it cancelled |
| MigrationHandler.BindCredentials | handler/migration_handler.go:23-34 | the test request binds exactly when the body is an object with non-empty `host`, `username` and `password` |
| MigrationHandler.TestConnection | handler/migration_handler.go:29-46 | a binding failure is a 400; the test succeeds exactly when the login does, showing the token's first ten bytes and `...`; a login that panics gives the recovery reply |
| MigrationHandler.ShownTokenLength | handler/migration_handler.go:44 | a successful test shows at most thirteen characters ending in `...`, and for a token whose first ten characters are ASCII it shows exactly those ten and `...` |
| ZimaosClient.StructuredToken | service/zimaos_client.go:153-166 | a string `data.token` is taken as the token, and a response without `data` or without `data.token` leaves the token as it was |
| ZimaosClient.RawFallbackToken | service/zimaos_client.go:168-189 | the fallback pass never replaces a token that is already known |
| ZimaosClient.Login | service/zimaos_client.go:110-197 | a status other than 200 or an undecodable body fails; a successful login holds a token of at least ten UTF-8 bytes, because the log line slices ten bytes; the no-token error arises only from a 200 whose body decodes |
| ZimaosClient.WideTokenLogsIn | service/zimaos_client.go:195 | a token of four four-byte characters is sixteen bytes long, so the login accepts it |
| ZimaosClient.FreshLoginToken | service/zimaos_client.go:146-196 | from a fresh client, the token is the structured one when non-empty and otherwise the top-level one; none is the no-token error, and one shorter than ten characters panics at the log line |
| ZimaosClient.TokenPrecedence | service/zimaos_client.go:153-164 | a string `data.token` is used as it is; in a token object `access_token` is preferred to `refresh_token`, which is used when it is the only one |
| ZimaosClient.ClassifyCreateFolder | service/zimaos_client.go:237-267 | the folder counts as created exactly for 200 and 201, and as already there exactly for a 409 or a status of 400 or more with a recognised plain or JSON body |
| ZimaosClient.CreateFolderErrors | service/zimaos_client.go:255-267 | any other status below 400, and any status of 400 or more with an unrecognised body, is an error |
| ZimaosClient.RangeHeader | service/zimaos_client.go:465 | the header is `bytes=0-` followed by the decimal of the size minus one |
| ZimaosClient.DownloadPartial | service/zimaos_client.go:478-494 | a status other than 200 or 206 fails; with a negative size the truncation panics; otherwise the result is the first `min(size, length)` bytes of the body |
| ZimaosClient.GetFileInfo | service/zimaos_client.go:391-443 | a status other than 200 or an undecodable listing fails; the entry returned is the first one named like the path's base, and the lookup fails exactly when no entry has that name |
| ZimaosClient.ProgressDeltas | service/zimaos_client.go:377-383 | one positive delta is reported per read that returned bytes, and the deltas add up to the bytes read |
| ZimaosClient.ProgressDeltasConcat | service/zimaos_client.go:377-383 | the deltas of two runs of reads are the deltas of the first followed by those of the second |
| ZimaosClient.CancelableRead | service/zimaos_client.go:25-33 | once the context is done the read returns 0 bytes with the context's error without consulting the inner reader; otherwise it is the inner read |
| ZimaosClient.CancelledReadsReportNothing | service/zimaos_client.go:25-33 | after the context is done, the reads through both wrappers report no progress at all |
| MigrationWorker.RunOptions | worker/migration_worker.go:97-104 | stored options that decode are used as they are; a malformed or undecodable text gives the fallback of no overwriting, errors skipped and times preserved |
| MigrationWorker.StoredOptionsUsed | worker/migration_worker.go:97-104 | a task created through the service runs with exactly the options it was created with |
| MigrationWorker.RunFolders | worker/migration_worker.go:106-109 | the stored folder list is accepted exactly when it parses as `null` or as an array of strings |
| MigrationWorker.RunFoldersAgreeWithStatus | worker/migration_worker.go:106-109 | whenever the run accepts the stored list it reads the same folders a status query reports |
| MigrationWorker.CreatedFoldersRead | worker/migration_worker.go:106-109 | the folders of a task created through the service are read back unchanged |
| MigrationWorker.ItemsOf | worker/migration_worker.go:287-298 | one work item per kept file, in walk order, whose destination is the base path, the folder's name and the relative path, and whose sizes add up to the files' sizes |
| MigrationWorker.RemotePath | worker/migration_worker.go:291 | a file lands under the base path, in a directory named like the folder's last element, at the same path below it as below the folder |
| MigrationWorker.RemotePathInjective | worker/migration_worker.go:291 | two files of one folder never land on the same remote path |
| MigrationWorker.ScanFolders | worker/migration_worker.go:255-311 | the total is the sum of the item sizes, every item comes from one of the given folders, and its destination is built from the base path, its folder's name and its relative path |
| MigrationWorker.ScanFoldersPrunes | worker/migration_worker.go:267-278 | no listed file lies below an `@` directory, nor below `#recycle` unless the recycle bin is included |
| MigrationWorker.WorkerTotalsMatchDetails | worker/migration_worker.go:255-311 | for one folder, the run's file count and total size equal the folder details the scanner reports |
| MigrationWorker.UploadWithRetry | worker/migration_worker.go:313-329 | the upload succeeds exactly when an attempt below the retry limit succeeds; attempts stop at the first success or at the limit; the sleeps between attempts are 1, 2, 4, … seconds, one fewer than the attempts |
| MigrationWorker.PauseGate | worker/migration_worker.go:161-175 | a paused task resumes at the first poll reading pending, stops at the first failed lookup or cancel, and keeps waiting exactly while every poll reads anything else |
| MigrationWorker.RunningDoesNotResume | worker/migration_worker.go:169 | setting a paused task straight back to running never releases the worker |
| MigrationWorker.StepFile | worker/migration_worker.go:149-225 | a failed lookup ends the loop (the run then completes as if every file were handled) and a cancel stops it, both with the counters unchanged and nothing written; a transferred file sets processed to its position plus one and adds its size; a failed one counts a failure when errors are skipped and otherwise aborts with the row re-read before the file; no row the step saves is cancelled, and its counter changes are its new counters |
| MigrationWorker.Checkpoint | worker/migration_worker.go:218-222 | the row the throttled save writes is the row re-read before the file, keeping its key, status, completion time and totals, with the live counters |
| MigrationWorker.StepCheckpoint | worker/migration_worker.go:196-222 | after a transferred file the step writes its counter change, and on a throttled step then stores the status again and saves the re-read row with the new counters; otherwise the counter change is its last write |
| MigrationWorker.StepResume | worker/migration_worker.go:160-175 | a step that goes on after a pause first saves the row read by the releasing poll, set to running; a step of a task that was not paused saves no row before its checkpoint |
| MigrationWorker.StepOwnRows | worker/migration_worker.go:150-193 | a step that reads only the task's own row saves only that row and aborts on it |
| MigrationWorker.RunFiles | worker/migration_worker.go:149-227 | along the loop the counters never decrease, the trail ends at the final counters, and processed, failed and transferred stay within the file count and the total size; the loop never saves a cancelled row, and every counter change it writes lies between the starting and the final counters |
| MigrationWorker.RunFilesOwnRows | worker/migration_worker.go:149-227 | when every row the loop reads is the task's own, so is every row it saves and the row an abort hands to `failTask` |
| MigrationWorker.ProcessedPlusFailedCanExceedTotal | worker/migration_worker.go:195-200 | with errors skipped, a failed first file and a transferred second file end with 2 processed and 1 failed out of 2 files |
| MigrationWorker.InitialStatus | worker/migration_worker.go:131-143 | the live status starts running, with the found totals and every counter at zero |
| MigrationWorker.FailedStatus | worker/migration_worker.go:339-343 | the status `failTask` caches is failed with the update time, and every counter and total is zero |
| MigrationWorker.FailTask | worker/migration_worker.go:331-347 | the row it is given keeps its key and counters and is saved failed with a completion time, and then the fresh failed status is cached |
| MigrationWorker.ApplyProgress | worker/migration_worker.go:185-201 | the worker's counter changes reach the cached status of that task only, and leave the table alone |
| MigrationWorker.ApplyEffect | service/migration_service.go:148-154 | a row save changes only the table; a status write, a counter change or a re-store changes only the cache, and the latter two never add a cached task |
| MigrationWorker.ApplyEffects | service/migration_service.go:148-154 | writes that save no row leave the table unchanged |
| MigrationWorker.ProgressKeepsReportedStatus | worker/migration_worker.go:185-201 | counter changes never change the status a task is reported with |
| MigrationWorker.CancelSurvivesProgress | worker/migration_worker.go:196-201 | after a synced cancel, the worker's counter changes leave the task reported as cancelled |
| MigrationWorker.ThrottledStepWrites | worker/migration_worker.go:196-222 | for a running task, a transferred file on a throttled step writes exactly the counter change, the re-stored status and the re-read row with the new counters |
| MigrationWorker.CheckpointWins | worker/migration_worker.go:218-222 | whatever the table holds for the task, those writes leave the checkpointed row in its place |
| MigrationWorker.CancelLostToCheckpoint | worker/migration_worker.go:150-222 | a cancel accepted between the re-read of a running task and its throttled save is undone: the task reads as cancelled, then as running again |
| MigrationWorker.SaveCounters | worker/migration_worker.go:218-222 | the corrected save writes only the counter columns of the task's rows, keeping every status and key and leaving other tasks' rows alone |
| MigrationWorker.CancelSurvivesCounterSave | worker/migration_worker.go:218-222 | with the corrected save, a cancel stays in the row, which still takes the new counters |
| MigrationWorker.ResumedStepWrites | worker/migration_worker.go:161-222 | a throttled step that resumes a paused task and transfers its file writes, in order, the polled row as running, the counters, the status again, and the row re-read before the pause with the new counters |
| MigrationWorker.ResumeUndoneByCheckpoint | worker/migration_worker.go:150-222 | after such a step the task's row reads as paused again, so the resume is lost |
| MigrationWorker.ResumeSurvivesCounterSave | worker/migration_worker.go:165-222 | with the corrected save, the row saved as running keeps its status and takes the new counters |
| MigrationWorker.CompletedRow | worker/migration_worker.go:229-235 | the completed row keeps its key, id and totals, takes the loop's counters, and has a completion time |
| MigrationWorker.FinishLoop | worker/migration_worker.go:227-247 | a finished loop or a failed lookup completes the counted row; an abort fails the row re-read before the failing file, keeping that row's last checkpointed counters; a cancel or a pause writes nothing more; completion saves counters within the totals and then a completed status with the same counters; only the task's own row is saved when the aborted row is |
| MigrationWorker.Migrate | worker/migration_worker.go:118-247 | the first writes are the counted row and a live status with the same file total; when every row the loop reads is the task's own, only that row is ever saved; a completed run ends with the completed row and status, and a failed one with `failTask`'s row and status |
| MigrationWorker.LookupFailureCompletesEmpty | worker/migration_worker.go:150-154 | a failed lookup before the first file completes the run with nothing processed and nothing transferred |
| MigrationWorker.FailureReportsZeroCounters | worker/migration_worker.go:339-344 | once `failTask` has cached its status the task reads as failed with every counter at zero, whatever its row records |
| MigrationWorker.ProcessTask | worker/migration_worker.go:79-121 | an unreadable task does nothing; a cancelled one is skipped; any other is first saved running with a start time; when the loop reads only its own row only that row is saved, and the run ends completed or with `failTask`'s writes as the effects say |
| FileTree.Collect | worker/migration_worker.go:262-298 | every listed file lies under the walk's starting path, only a directory that is not pruned contributes files below it, and no directory on a listed file's path is pruned |
| FileTree.CollectAll | worker/migration_worker.go:262-298 | every file listed under a directory's children lies strictly below that directory, and no directory between them is pruned |
| FileTree.WalkRoot | worker/migration_worker.go:262-278 | an unreadable root lists nothing, a pruned root lists nothing, and no listed file has a pruned directory on its path |
| FileTree.Details | service/scanner_service.go:156-179 | a pruned directory counts nothing, a file counts at most once, and no size is summed without a counted file |
| FileTree.DetailsAll | service/scanner_service.go:161-175 | over siblings, no size is summed without a counted file, and no siblings count nothing |
| FileTree.DetailsAgree | service/scanner_service.go:156-179 | the folder-details walk's count and total size equal the number and summed sizes of the files the worker's walk lists for the same tree |
| FileTree.DetailsAllAgree | service/scanner_service.go:156-179 | the same agreement for the children of one directory, taken in order |
| Scanner.Scan | service/scanner_service.go:26-47 | a cache younger than the lifetime is served unchanged; otherwise a failed scan is returned and keeps the old cache, and a successful one is returned and stored with the current time |
| Scanner.ScanServedFromCache | service/scanner_service.go:28-44 | after a successful scan, every scan less than the lifetime later returns that same result, whatever a new scan would give, and keeps the cache |
| Scanner.ExpiredCacheRescans | service/scanner_service.go:28 | once the lifetime has elapsed, the outcome is the new scan's |
| Scanner.NonPositiveTtlAlwaysRescans | service/scanner_service.go:28 | a lifetime of zero or less never serves a cache stored at or before now |
| Scanner.IsSharedFolder | service/scanner_service.go:112-127 | a volume entry is a shared folder exactly when it is a directory, its name does not start with `@`, and its metadata can be read |
| Scanner.ScanVolume | service/scanner_service.go:105-141 | exactly the readable directories not starting with `@` are listed, each at the volume path joined with its name and with zero size and file count |
| Scanner.Volumes | service/scanner_service.go:61-97 | every `volume…` directory whose listing succeeds is reported, and nothing else, as its name, joined path and folders |
| Scanner.VolumesAreVolumeDirs | service/scanner_service.go:61-86 | a reported volume is named `volume…` and sits at the host path joined with its name |
| Scanner.PerformScan | service/scanner_service.go:49-103 | the scan fails exactly when the host directory cannot be read. Otherwise it reports the scan time and the listed volumes, and no volume list at all (`"volumes": null`) exactly when no `volume…` directory was listed, since the slice starts nil and is only appended to |
| Scanner.FolderNamedByPath | service/scanner_service.go:122-131 | a listed shared folder's name is the base of its own path |
| Scanner.GetFolderDetails | service/scanner_service.go:143-192 | a missing or unreadable path is an error and a file is an invalid argument; a directory reports its own path, its base name, and the count and summed size of the files below it outside pruned directories |
| Scanner.PrunedContentsIgnored | service/scanner_service.go:161-169 | an `@` directory, or `#recycle` when the recycle bin is excluded, counts nothing, whatever it contains |
| Discovery.To4 | service/discovery_service.go:145 | a 4-byte address is kept, a 16-byte one gives its last four bytes, and any other length gives nothing |
| Discovery.BroadcastAddress | service/discovery_service.go:144-161 | an address exists exactly for an IPv4 address with a 4-byte mask, and each byte keeps the address's network bits and sets every host bit |
| Discovery.BroadcastUnique | service/discovery_service.go:155-158 | the broadcast address is the only 4-byte address with the network bits of the address and every host bit set |
| Discovery.SendsToIff | service/discovery_service.go:78-91 | an address is broadcast from exactly when it is a non-loopback IPv4 network address with a 4-byte mask, and then to its broadcast address |
| Discovery.AddrTargets | service/discovery_service.go:76-104 | an interface sends to exactly the broadcast addresses of its addresses that send |
| Discovery.BroadcastTargets | service/discovery_service.go:42-56 | broadcasts go to exactly the addresses some up, non-loopback, broadcast-capable interface with readable addresses sends to |
| Discovery.Dotted | service/discovery_service.go:127-133 | an IPv4 address's text holds no `:`, `?`, `&` or `/` |
| Discovery.DeviceKey | service/discovery_service.go:127 | the key is the responder's address, a colon, and the port's decimal text, which reads back as the port |
| Discovery.DeviceKeyInjective | service/discovery_service.go:127 | two replies share a key only when their responder address and reported port are both equal |
| Discovery.ImageUrl | service/discovery_service.go:133-134 | the image is fetched over HTTP from the host and port the device is remembered under |
| Discovery.Reported | service/discovery_service.go:132-134 | the reported device takes the responder's address as its `ip` and the image URL built from that address, its port and model, and keeps the rest of its payload |
| Discovery.Dedupe | service/discovery_service.go:111-140 | the loop only adds to the seen set and reports at most one device per reply |
| Discovery.DedupeReportsOnce | service/discovery_service.go:127-130 | no key is reported twice and none that was seen before, and every reported key ends up seen |
| Discovery.DedupeComplete | service/discovery_service.go:122-140 | every decodable reply's key ends up seen, and was either seen before or belongs to a reported device |
| Discovery.DedupeFollowsKeys | service/discovery_service.go:122-140 | the reported devices' keys are exactly the first sightings of the decodable replies' keys, in order |
| Discovery.FirstSightingsComplete | service/discovery_service.go:127-130 | in the seen-set loop every offered key ends up seen and was either seen before or kept |
| Discovery.DedupeSound | service/discovery_service.go:122-140 | every reported device is what some decodable reply carries, stamped with its responder's address |
| Discovery.RepeatedReplyReportedOnce | service/discovery_service.go:127-130 | a responder answering twice with the same port is reported once |
| ApiClient.RequestUrl | webui/src/api/client.ts:3-12 | the fetched URL is the API base followed by the path, unchanged |
| ApiClient.Headers | webui/src/api/client.ts:14-17 | the JSON content type is sent unless the caller gives its own, and every header the caller gives is sent unchanged |
| ApiClient.MessageText | webui/src/api/client.ts:23 | a falsy message (absent, `null`, `false`, `0`, "") gives `Request failed`; any other gives its `String` form, so a non-empty string is kept and an object is `[object Object]`; only an array can give an empty text |
| ApiClient.JsString | webui/src/api/client.ts:23 | a string is its own text, an object `[object Object]`, and an empty array the empty text |
| ApiClient.JoinComma | webui/src/api/client.ts:23 | the parts in order with a comma between neighbours: an empty list gives the empty text, and the length is the parts' lengths plus the commas |
| ApiClient.SplitJoinComma | webui/src/api/client.ts:23 | splitting the joined text at commas gives back the parts when none of them holds a comma |
| ApiClient.EmptyArrayMessage | webui/src/api/client.ts:23 | an empty array is truthy yet its text is empty, so the error carries an empty message |
| ApiClient.DecodeEnvelope | webui/src/api/client.ts:20-26 | a body that is not JSON or is `null` is rejected; the request resolves exactly when `code` is the number 0, and then to the envelope's `data` |
| ApiClient.EnvelopeJson | webui/src/api/client.ts:5-9 | the envelope has `code` and `message`, and `data` exactly when there is data |
| ApiClient.EnvelopeRoundTrip | webui/src/api/client.ts:20-26 | an envelope the server wrote decodes to its data on code 0, and otherwise to its message or `Request failed` when that is empty |
| ApiClient.ListMigrationsPath | webui/src/api/client.ts:81-87 | with no arguments the query asks for 20 tasks from offset 0 |
| ApiClient.CreateMigrationBody | webui/src/api/client.ts:56-75 | the body has exactly the six snake-case keys, each carrying its argument, the folders in order |
| ApiRetry.Resolve | webui/src/lib/api-retry.ts:13-18 | absent options default to 3 retries, 1000 ms initial delay, 10000 ms cap and factor 2; given ones are used as they are |
| ApiRetry.DelayAfter | webui/src/lib/api-retry.ts:29 | the delay after failed attempt k is the initial delay times the factor to the k, capped at the maximum delay |
| ApiRetry.RetryWithBackoff | webui/src/lib/api-retry.ts:4-36 | at most retries + 1 calls, every call but the last failed; the first success is returned; when every call fails the last error is thrown, a non-`Error` as `Unknown error`; one capped delay after each failed call but the last |
| ApiRetry.DefaultSchedule | webui/src/lib/api-retry.ts:13-29 | with the defaults, four calls with sleeps of 1, 2 and 4 seconds |
| ApiRetry.DelaysSaturate | webui/src/lib/api-retry.ts:29 | once the exponential reaches the cap, every later delay equals the cap |
| AppStore.MergeConfig | webui/src/store/useAppStore.ts:106-109 | each connection field takes the patch's value when the patch has one and keeps its own otherwise |
| AppStore.MergeOptions | webui/src/store/useAppStore.ts:118-121 | each option takes the patch's value when the patch has one and keeps its own otherwise |
| AppStore.MergeConfigCompose | webui/src/store/useAppStore.ts:106-109 | two successive merges act as one merge of the composed patch |
| AppStore.Without | webui/src/store/useAppStore.ts:88-91 | every occurrence of the folder is dropped and the other folders keep their number of occurrences |
| AppStore.WithoutConcat | webui/src/store/useAppStore.ts:88-91 | removal distributes over concatenation, so the remaining folders keep their relative order |
| AppStore.Dispatch | webui/src/store/useAppStore.ts:83-123 | adding appends the folder, removing drops all its copies, storing a scan stamps it with the current time, clearing drops result and stamp, blanking the password keeps the other connection fields, reset restores the initial state, and each action leaves the connection and the step alone unless it is about them |
| AppStore.ScanCacheWindow | webui/src/store/useAppStore.ts:54-104 | a result stored at a non-zero time is valid exactly while less than five minutes old |
| AppStore.ClearedCacheInvalid | webui/src/store/useAppStore.ts:98-102 | a cleared scan result is never valid |
| AppStore.ZeroStampInvalid | webui/src/store/useAppStore.ts:102 | a result stamped at time 0 is never valid, because 0 is falsy |
| AppStore.ClearPasswordIsPatch | webui/src/store/useAppStore.ts:106-113 | blanking the password is the merge of a patch setting only the password to the empty string |
| AppStore.AddThenRemove | webui/src/store/useAppStore.ts:86-91 | adding a folder and removing it leaves no copy of it, even one selected before |
| AppStore.ResetForgets | webui/src/store/useAppStore.ts:56-123 | reset gives the initial state whatever the state before |
| AppStore.Partialize | webui/src/store/useAppStore.ts:128-145 | the persisted state has a blank password and every other field as in the store |
| AppStore.PartializeIsClearPassword | webui/src/store/useAppStore.ts:110-145 | persisting is blanking the password, so persisting twice is persisting once |
| AppStore.PasswordDoesNotLeak | webui/src/store/useAppStore.ts:128-145 | replaying any action on the restored state persists the same as replaying it on the live state |
| TaskStore.AddTask | webui/src/store/useTaskStore.ts:50-51 | the new task goes in front and the rest of the list follows unchanged; the active statuses, pagination, filter and loading flag are left as they were |
| TaskStore.UpdateTask | webui/src/store/useTaskStore.ts:52-57 | every task with the id gets the patch merged in; the others and the length stay the same |
| TaskStore.UpdateTaskNoop | webui/src/store/useTaskStore.ts:52-57 | an empty patch, or an id no task has, leaves the list unchanged |
| TaskStore.GetTaskById | webui/src/store/useTaskStore.ts:91-94 | the first task with the id, and nothing exactly when no task has it |
| TaskStore.AddedTaskIsFound | webui/src/store/useTaskStore.ts:50-94 | a task just added is what the lookup by its id returns |
| TaskStore.UpdateThenGet | webui/src/store/useTaskStore.ts:52-94 | after a status update that keeps the id, the lookup sees the new status |
| TaskStore.SetActiveTaskStatus | webui/src/store/useTaskStore.ts:61-66 | the id becomes known with that status, every other id keeps its status, and the list, pagination, filter and loading flag are left as they were |
| TaskStore.GetActiveTaskStatus | webui/src/store/useTaskStore.ts:95-98 | a status is returned exactly for a known id, and it is the stored one |
| TaskStore.RemoveActiveTask | webui/src/store/useTaskStore.ts:67-72 | the id becomes unknown, every other id keeps its status, and the list, pagination, filter and loading flag are left as they were |
| TaskStore.ClearActiveTasks | webui/src/store/useTaskStore.ts:73 | no id is known any more, and the list, pagination, filter and loading flag are left as they were |
| TaskStore.SetThenGet | webui/src/store/useTaskStore.ts:61-98 | a stored status reads back, and every other id reads as before |
| TaskStore.RemoveThenGet | webui/src/store/useTaskStore.ts:67-98 | a removed id reads as unknown, and every other id reads as before |
| TaskStore.SetPagination | webui/src/store/useTaskStore.ts:77-80 | each paging field takes the patch's value when it has one and keeps its own otherwise; the list, active statuses, filter and loading flag are left as they were |
| TaskStore.SetPaginationCompose | webui/src/store/useTaskStore.ts:77-80 | two patches in a row act as one patch with the later values winning; the empty patch changes nothing, and a patch applied twice acts once |
| TaskStore.SetPageKeepsSize | webui/src/store/useTaskStore.ts:39-80 | setting only the page keeps the initial page size of 20 |
| TaskStore.SetTasks | webui/src/store/useTaskStore.ts:49 | the list is replaced, and the active statuses, pagination, filter and loading flag are left as they were |
| TaskStore.SetStatusFilter | webui/src/store/useTaskStore.ts:84 | the filter is replaced, and the list, active statuses, pagination and loading flag are left as they were |
| TaskStore.SetIsLoadingTasks | webui/src/store/useTaskStore.ts:88 | the loading flag is replaced, and the list, active statuses, pagination and filter are left as they were |
| TaskRecovery.RecoveryTarget | webui/src/hooks/useTaskRecovery.ts:19 | the recovery page is under `/workflow`, followed by the migration segment and the task id |
| TaskRecovery.OnMount | webui/src/hooks/useTaskRecovery.ts:14-21 | it redirects, replacing the history entry, exactly when a task id is set, the step is migration and the location holds no migration segment |
| TaskRecovery.NoRedirectOnMigrationPage | webui/src/hooks/useTaskRecovery.ts:18 | no redirect happens from the monitor page of any task |
| TaskRecovery.Navigations | webui/src/hooks/useTaskRecovery.ts:14-22 | over any sequence of renders it navigates at most once, exactly as the first render's context decides |
| TaskRecovery.LaterRendersIgnored | webui/src/hooks/useTaskRecovery.ts:22 | later renders never change what the hook does |
| Wizard.Handle | webui/src/App.tsx:14-82 | a click callback fires only from the current step's page; the start of a migration, which runs when the create request settles, is handled on any step. Choosing folders stores them and moves to configuration, a start stores the task id and moves to monitoring, leaving the monitor resets everything, and the other callbacks only change the step |
| Wizard.Run | webui/src/App.tsx:19-22 | an empty series of callbacks leaves the wizard as it was, and a series ending with a settled start ends at the migration step with that task |
| Wizard.RunKeepsTaskOnlyWhileMigrating | webui/src/App.tsx:19-27 | over any sequence of callbacks a task id is only held at the migration step |
| Wizard.Index | webui/src/App.tsx:40-55 | the four steps take the positions 0 to 3 |
| Wizard.Width | webui/src/App.tsx:60 | the progress bar is a quarter wider at each step |
| Wizard.WidthFollowsOrder | webui/src/App.tsx:60 | the bar widens strictly with the step order and is full only at the migration step |
| Wizard.CallbacksMoveOneStepForward | webui/src/App.tsx:14-78 | every forward click moves exactly one step on and every backward one moves back; a settled start always lands on the migration step, which is one step on only from configuration |
| Wizard.LateStartSkipsSteps | webui/src/pages/ConfigPage.tsx:50-74 | Start Migration followed by Back, or by Back twice, before the task is created takes the wizard from the select or scan step straight to monitoring, with the folders chosen earlier |
| Wizard.RunAppend | webui/src/App.tsx:9-27 | callbacks handled in two batches leave the wizard as the whole series does |
| Wizard.CurrentIndex | webui/src/components/workflow/StepIndicator.tsx:4-14 | a known step identifier gives its position in the list, and only an unknown one gives −1 |
| Wizard.ActiveStepsArePrefix | webui/src/components/workflow/StepIndicator.tsx:20 | the active steps form a prefix, and an unknown step activates nothing |
| Wizard.ExactlyOneCurrent | webui/src/components/workflow/StepIndicator.tsx:20-21 | a step is current at exactly its own position, which is the last active one |
| Wizard.ConnectorBetweenActiveSteps | webui/src/components/workflow/StepIndicator.tsx:47-52 | a connector is filled exactly when both of its ends are active |
| Wizard.IndicatorAgreesWithWizard | webui/src/components/workflow/StepIndicator.tsx:14 | the indicator's position for each wizard step is the step's own, so bar and indicator agree |
| SelectPage.LoadScanResult | webui/src/pages/SelectPage.tsx:16-28 | loading ends either way; a result is shown, or the error's message, `Failed to load scan result` for a non-`Error` |
| SelectPage.Render | webui/src/pages/SelectPage.tsx:48-77 | the spinner exactly while loading, then the error panel exactly for a non-empty error, then a thrown render exactly when the held result has no volume list, and otherwise the list of the result with the selection count |
| SelectPage.LoadThenRender | webui/src/pages/SelectPage.tsx:16-77 | a settled load never leaves the spinner; a failed one keeps any result held and shows the error panel exactly for a non-empty message; a successful one is listed unless an error is already set, and throws instead when the result has no volume list |
| SelectPage.MountLoadShows | webui/src/pages/SelectPage.tsx:11-77 | on mount the spinner shows, then the result with nothing selected (a thrown render for a result with no volume list), or the fallback text for a non-`Error` rejection |
| SelectPage.HostWithoutVolumesCrashes | service/scanner_service.go:57-100 | a readable host scans successfully, and the select page showing that scan throws exactly when the host has no listed `volume…` directory |
| SelectPage.Toggle | webui/src/pages/SelectPage.tsx:30-38 | the path's membership flips, no other path's changes, a selected path is removed and a new one goes at the end, and no path is ever listed twice |
| SelectPage.ToggleTwice | webui/src/pages/SelectPage.tsx:30-38 | toggling twice selects the same paths, and for an unselected path gives back the very same list |
| SelectPage.ToggleAllParity | webui/src/pages/SelectPage.tsx:30-38 | after any clicks from an empty selection, a path is selected exactly when it was clicked an odd number of times, and never twice |
| SelectPage.HandleNext | webui/src/pages/SelectPage.tsx:40-46 | nothing is handed on exactly for an empty selection; otherwise exactly the selected paths, each once |
| SelectPage.ClickedSelectionHandedOnce | webui/src/pages/SelectPage.tsx:30-46 | what the next step receives after any clicks is the oddly clicked paths, each once |
| ConfigPage.InitialFormDefaults | webui/src/pages/ConfigPage.tsx:12-25 | the form starts with base path `/DATA`, no test result, no overwriting, errors skipped and times preserved |
| ConfigPage.ApplyEdit | webui/src/pages/ConfigPage.tsx:97-186 | an input's change only changes its own field and never the test result, the flags or the error |
| ConfigPage.EditsKeepTestResult | webui/src/pages/ConfigPage.tsx:97-186 | no sequence of edits clears a test result |
| ConfigPage.TestConnection | webui/src/pages/ConfigPage.tsx:27-48 | with a field missing nothing is sent; otherwise the form's credentials are sent and the result replaces the old one, with the error cleared |
| ConfigPage.StartMigration | webui/src/pages/ConfigPage.tsx:50-74 | without a successful test nothing is sent; otherwise the body built from the current form is sent, a created task's id is handed on, and a failure shows its message |
| ConfigPage.StartSendsIffEnabled | webui/src/pages/ConfigPage.tsx:50-209 | outside a running creation, a request is sent exactly when the Start button is enabled |
| ConfigPage.StartUsesUntestedEdits | webui/src/pages/ConfigPage.tsx:51-97 | after a successful test, an edited host is what the migration starts with, though it was never tested |
| DeviceConfigDialog.Prefill | webui/src/components/DeviceConfigDialog.tsx:45-63 | opening with a discovered device fills in its host and blanks the credentials, any other opening blanks the form, and the test result and errors are cleared; a closed dialog is left alone |
| DeviceConfigDialog.Validate | webui/src/components/DeviceConfigDialog.tsx:65-86 | in manual mode the host must be present and start with a scheme; username and password are required in both modes |
| DeviceConfigDialog.IsValid | webui/src/components/DeviceConfigDialog.tsx:65-86 | the form is valid exactly when validation records no error |
| DeviceConfigDialog.ValidIff | webui/src/components/DeviceConfigDialog.tsx:65-86 | the form is valid exactly with both credentials and, in manual mode, a host with a scheme |
| DeviceConfigDialog.PrefilledHostHasScheme | webui/src/components/DeviceConfigDialog.tsx:47-49 | a discovered device's prefilled host starts with `http://` |
| DeviceConfigDialog.DiscoveredWithoutDeviceSkipsHost | webui/src/components/DeviceConfigDialog.tsx:47-68 | opened in discovered mode without a device, an empty host still validates once the credentials are filled in |
| DeviceConfigDialog.TestConnection | webui/src/components/DeviceConfigDialog.tsx:88-117 | the errors become the validation's; a test is sent exactly for a valid form, and then its result is shown |
| DeviceConfigDialog.Connect | webui/src/components/DeviceConfigDialog.tsx:119-130 | `handleConnect`: after a successful test the form is handed on and the dialog closes; otherwise the connection is tested |
| DeviceConfigDialog.ConnectEnabled | webui/src/components/DeviceConfigDialog.tsx:266 | the connect button is enabled exactly when no test runs and the last test succeeded |
| DeviceConfigDialog.ClickConnect | webui/src/components/DeviceConfigDialog.tsx:266 | a click on the connect button does something exactly when no test runs and the last test succeeded, and then it hands the form on and closes the dialog, never testing |
| DeviceConfigDialog.TestThenConnect | webui/src/components/DeviceConfigDialog.tsx:88-130 | testing a valid form enables the connect button exactly when the test succeeds, and the click then hands that form on and closes; an invalid form leaves the button as it was |
| DeviceConfigDialog.OpenTestConnect | webui/src/components/DeviceConfigDialog.tsx:45-130 | a freshly opened dialog cannot connect; after the credentials are filled in and the test succeeds, the click hands exactly that form on and closes |
| StorageSelector.ContainsDotDot | webui/src/components/StorageSelector.tsx:23 | the substring test for `..` holds exactly where two dots are adjacent |
| StorageSelector.ValidatePath | webui/src/components/StorageSelector.tsx:20-32 | the empty path passes; a path with `..` is refused first; one longer than 255 UTF-16 code units is refused; exactly the rest pass, 255 code units included |
| StorageSelector.LengthCountsCodeUnits | webui/src/components/StorageSelector.tsx:27 | 128 characters outside the Basic Multilingual Plane are refused as too long, while 255 ASCII characters without `..` pass |
| StorageSelector.NormalizePath | webui/src/components/StorageSelector.tsx:35-45 | the result is empty or opens with `/` and has no trailing `/`; it is the input, with `/` put in front when missing, minus trailing slashes only |
| StorageSelector.NormalizeFixpoints | webui/src/components/StorageSelector.tsx:35-45 | a path is left unchanged exactly when it is already in normal form |
| StorageSelector.NormalizeIdempotent | webui/src/components/StorageSelector.tsx:35-45 | normalising twice is normalising once |
| StorageSelector.NormalizeSlashes | webui/src/components/StorageSelector.tsx:38-41 | a path of only slashes normalises to the empty path |
| StorageSelector.HandleSubPathChange | webui/src/components/StorageSelector.tsx:132-144 | the box shows the input without one leading `/`, the store gets that text normalised even when invalid, and the error is the normalised path's |
| StorageSelector.SubPathRoundTrip | webui/src/components/StorageSelector.tsx:82-144 | storing a typed sub-path and syncing the box from the store shows the typed text without its trailing slashes |
| StorageSelector.IsDisabled | webui/src/components/StorageSelector.tsx:153-220 | an entry is disabled exactly when its health is not literally true |
| StorageSelector.AvailableSpace | webui/src/components/StorageSelector.tsx:146-151 | the available space is size minus used, each missing field counting 0 |
| StorageSelector.IsStorageHealthy | webui/src/components/StorageSelector.tsx:106-108 | an entry is healthy exactly when its extensions are present and their health is literally true |
| StorageSelector.AutoSelect | webui/src/components/StorageSelector.tsx:104-112 | an existing choice is kept; otherwise the first healthy entry is chosen, and nothing exactly when no entry is healthy |
| StorageSelector.HandleStorageChange | webui/src/components/StorageSelector.tsx:127-130 | the first entry with the chosen path, and nothing exactly when none has it |
| HistoryPage.TotalPages | webui/src/pages/HistoryPage.tsx:34 | the page count is the ceiling of total over limit: enough pages and not one more |
| HistoryPage.PageBeforeCount | webui/src/pages/HistoryPage.tsx:34 | a page index is below the count exactly when that page starts before the end of the list |
| HistoryPage.FirstLoadIsDefaultWindow | webui/src/pages/HistoryPage.tsx:30 | the first load of a fresh store asks for the client's default window |
| HistoryPage.RequestPath | webui/src/pages/HistoryPage.tsx:30 | within the server's integer range, the list handler reads back exactly the page size as limit and the page times the page size as offset |
| HistoryPage.StartLoad | webui/src/pages/HistoryPage.tsx:26-29 | a load in flight sets loading and clears the error, keeping the list and paging |
| HistoryPage.LoadTasks | webui/src/pages/HistoryPage.tsx:26-41 | loading ends either way and page and page size are kept; a result replaces the list, total and page count; a failure keeps them and shows its message |
| HistoryPage.FilteredTasks | webui/src/pages/HistoryPage.tsx:47-49 | a non-empty filter keeps exactly the tasks with that status; no filter or an empty one keeps all |
| HistoryPage.FilteredTasksConcat | webui/src/pages/HistoryPage.tsx:47-49 | filtering keeps the list order |
| HistoryPage.FilteredTasksIdempotent | webui/src/pages/HistoryPage.tsx:47-49 | filtering twice changes nothing more |
| HistoryPage.TabFilter | webui/src/pages/HistoryPage.tsx:75 | only the `all` tab clears the filter |
| HistoryPage.TabValue | webui/src/pages/HistoryPage.tsx:75 | no filter shows the `all` tab |
| HistoryPage.TabsAgreeWithFilter | webui/src/pages/HistoryPage.tsx:47-89 | a chosen tab is shown as chosen, `all` shows every task and a status tab exactly the tasks in it |
| HistoryPage.Step | webui/src/pages/HistoryPage.tsx:127-137 | the buttons move one page back or on and change nothing else |
| HistoryPage.PagerStaysInRange | webui/src/pages/HistoryPage.tsx:123-138 | an enabled button keeps the page among the existing pages |
| HistoryPage.NextEnabledIffMoreTasks | webui/src/pages/HistoryPage.tsx:34-138 | after a load, Next is enabled exactly when the following page starts before the end |
| HistoryPage.PagesCover | webui/src/pages/HistoryPage.tsx:30 | pages 0 to n−1 together are exactly the first n·limit tasks of the server's list, none skipped or repeated |
| MonitorPages.Hms | webui/src/pages/MigrationPage.tsx:71-73 | hours, minutes and seconds recompose the duration, with minutes and seconds below 60 |
| MonitorPages.FormatTime | webui/src/pages/MigrationPage.tsx:69-77 | zero is `0s`; every text ends in a seconds field, and holds a space exactly from one minute up |
| MonitorPages.FormatTimeRoundTrip | webui/src/pages/MigrationPage.tsx:69-77 | reading a formatted duration back gives the duration, so the text names it exactly |
| MonitorPages.FormatTimeInjective | webui/src/pages/MigrationPage.tsx:69-77 | two durations never format alike |
| MonitorPages.FormatTimeShape | webui/src/pages/MigrationPage.tsx:74-76 | three fields from an hour up, two from a minute up, one below |
| MonitorPages.EtaText | webui/src/pages/MigrationPage.tsx:154 | a known ETA is shown as a text that reads back to it |
| MonitorPages.EtaIsNeverShown | webui/src/pages/MigrationPage.tsx:154 | with the ETA the status actually carries, the cell is no duration at all |
| MonitorPages.MonitorControls | webui/src/pages/MigrationPage.tsx:193-226 | cancel appears exactly with pause or resume, never both of those, and never beside a fresh start |
| MonitorPages.DetailControls | webui/src/pages/TaskDetailPage.tsx:244-270 | the detail page never offers a fresh start |
| MonitorPages.ControlsByStatus | webui/src/pages/TaskDetailPage.tsx:144-270 | both pages offer pause exactly for running and resume exactly for paused, nothing for the other statuses, and a fresh start only once the task is over |
| MonitorPages.MonitorCancel | webui/src/pages/MigrationPage.tsx:50-59 | a cancel is sent exactly when confirmed, to the task's cancel path |
| MonitorPages.DetailControl | webui/src/pages/TaskDetailPage.tsx:81-109 | a request is sent exactly with a task id, and for cancel with confirmation, to the task's path for that control |
| MonitorPages.CancelAgrees | webui/src/pages/TaskDetailPage.tsx:99-109 | with a task id, both pages' cancel send the same request |
| MonitorPages.Fetch | webui/src/pages/MigrationPage.tsx:16-26 | a fetched status replaces the old and clears the error; a failure keeps the status and shows its message; loading ends either way |
| MonitorPages.LastResolved | webui/src/pages/MigrationPage.tsx:16-29 | a status that changed is one some request fetched |
| MonitorPages.FetchAllShowsLatest | webui/src/pages/MigrationPage.tsx:16-29 | after polling, the status is the last fetched one and the error is the last request's |
| MonitorPages.ShowMonitor | webui/src/pages/MigrationPage.tsx:79-108 | progress is shown only without an error and with a status |
| MonitorPages.FailedRefreshHidesProgress | webui/src/pages/MigrationPage.tsx:21-90 | a failed refresh shows the error panel though the status is still held, and the next success brings the progress back |
| MonitorPages.InitialLoad | webui/src/pages/TaskDetailPage.tsx:43-65 | without a task id nothing happens; otherwise a cached task is shown, the status or the error is loaded and loading ends |
| MonitorPages.Poll | webui/src/pages/TaskDetailPage.tsx:67-79 | a poll's status replaces the shown one and a failed poll changes nothing |
| MonitorPages.PollAllKeepsError | webui/src/pages/TaskDetailPage.tsx:67-79 | polling shows the last polled status and leaves everything else as it was |
| MonitorPages.FailedLoadSticks | webui/src/pages/TaskDetailPage.tsx:58-124 | a failed first load shows its error for good, whatever the polls fetch |
| TaskProgress.Render | webui/src/components/migration/TaskProgress.tsx:12-93 | the card shows the status and its progress, and the verification panel exactly while verifying |
| TaskProgress.SpeedAndEtaOnlyWhileTransferring | webui/src/components/migration/TaskProgress.tsx:25-77 | speed and ETA appear exactly outside verification |
| TaskProgress.CountersAreSeparate | webui/src/components/migration/TaskProgress.tsx:25-66 | both layouts count uploads from the same fields, and the verified count moves nothing else on the card |
| TaskProgress.CurrentFileLine | webui/src/components/migration/TaskProgress.tsx:83-89 | the current file is named exactly when there is one and the task runs or verifies, labelled as verified exactly while verifying |
| StatusBadge.GetStatusConfig | webui/src/components/migration/TaskStatusBadge.tsx:8-25 | an unknown status is shown as given, outlined; failed alone is destructive, paused alone secondary, and completed and running alone default |
| StatusBadge.CaseInsensitive | webui/src/components/migration/TaskStatusBadge.tsx:9-21 | a known status gets the same badge in any mix of cases |
| StatusBadge.CaptionNamesStatus | webui/src/components/migration/TaskStatusBadge.tsx:9-23 | up to case, the caption is the status itself |
| StatusBadge.ServerStatusesCovered | webui/src/components/migration/TaskStatusBadge.tsx:22-23 | of the server's statuses only `verifying` is unknown to the badge, and it is shown as it is, outlined |
| Text.PathBase | service/scanner_service.go:187 | `filepath.Base` never gives the empty text: `.` for the empty path, and otherwise a last element without `/` or `/` itself |
| Text.JoinPath | service/scanner_service.go:75-122 | `filepath.Join` of a directory and an entry name is the directory without trailing slashes, one `/`, then the name |
| Text.BaseOfJoin | service/scanner_service.go:122-187 | the base of a joined path is the entry name again |
| Text.TrimTrailing | webui/src/components/StorageSelector.tsx:41 | removing trailing slashes keeps a prefix, drops only slashes and leaves no trailing slash |
| Text.ToLower | webui/src/components/migration/TaskStatusBadge.tsx:9 | lowering case keeps the length and maps each character on its own |
| Text.Atoi | config/config.go:91 | a number `strconv.Atoi` accepts lies in the int64 range and comes from a non-empty text |
| Text.Utf8Length | service/zimaos_client.go:195 | the UTF-8 length lies between one and four bytes per character, and equals the character count exactly for ASCII text |
| Text.Utf16Length | webui/src/components/StorageSelector.tsx:27 | the UTF-16 length lies between one and two code units per character, and equals the character count exactly when no character lies outside the Basic Multilingual Plane |
| Text.ShownBytePrefix | handler/migration_handler.go:44 | the text a ten-byte slice shows has at most ten characters, each the source's own at that position or the replacement character, and is the source's first ten characters when those are ASCII |
| Text.CutThroughWideCharacter | handler/migration_handler.go:44 | ten bytes of four four-byte characters show two whole characters and two replacement characters |

## Left out

- Sockets, HTTP transport, request bodies on the wire, the database driver, `sync.Map` locking, goroutines and channels: each becomes a parameter or an immutable value, because none of them takes a decision the core's logic depends on.
- The worker pool (`worker/migration_worker.go:30-77`) and its queue: a created task's id is handed on as a value, and concurrent runs of several tasks are not modelled.
- `logError` (`worker/migration_worker.go:349-359`) inserts an error-log row that nothing in the core reads, so that table is not modelled; log lines have no effect on state.
- The upload request itself (`service/zimaos_client.go:270-375`): the worker sees each upload attempt only as success or failure.
- `GetStorageList` (`handler/migration_handler.go:158-183`, `service/zimaos_client.go:498-537`): no route in `main.go` reaches the handler. The selector's use of its answer is modelled as a parameter.
- `debounce` and `throttle` (`webui/src/lib/api-retry.ts:38-76`): timer utilities that no modelled code calls.
- Timers and intervals: the one- and two-second polls, the five-second pause poll and the two-second dialog close. Polls become a sequence of outcomes, and the dialog's automatic close is not modelled.
- Floating point: progress percentages, speed, `formatBytes` and the verification bar are carried as values and never computed with. The retry options of `ApiRetry` are whole numbers, where `webui/src/lib/api-retry.ts` accepts any number (a `backoffFactor` of 1.5, say).
- Session storage: the persisted state is the projection `AppStore.Partialize`, and writing it out is not modelled.
- The clock inside the loop: whether a second has passed since the last status write (`worker/migration_worker.go:204-205`) is a flag of each step, and speed and ETA (lines 206-213) are floating point.
- MigrationWorker.Checkpoint: the saved row keeps the re-read row's progress percentage, where the worker writes the live one (`worker/migration_worker.go:221`), because percentages are floating point.
- The current file the worker names on its status before each file (`worker/migration_worker.go:176`) is not modelled; the counters are.
- The runtime cache holds pointers, so the worker's later changes reach the record it cached at `worker/migration_worker.go:143`. The model keeps that record as the cached value and applies each counter change and each re-store to it (`MigrationWorker.ApplyEffect`).
- JsonValue.DecodeStringList: Go decodes a `null` item of a stored `[]string` to the empty string (`service/migration_service.go:112`, `worker/migration_worker.go:107`), where the model treats an array holding a non-string like any other undecodable list (`MigrationWorker.RunFolders` fails the run on it). The service only ever stores arrays of strings.
- Types.OptionsFromJson: Go matches JSON keys to struct fields without regard to case; the model matches the exact lower-case keys, which are the ones the service writes.
- Scanner.Volumes: volumes are scanned in parallel and arrive in any order, so the contract gives membership only, not order.
- Discovery.Dedupe: replies from all interfaces are merged in arrival order, and that order is a parameter.
- HistoryPage.LoadTasks: requires a positive `limit` in a successful answer. The server's list handler never answers with a smaller one (`MigrationHandler.NormalizeLimit`), and a zero would make the client's page count infinite.
- MonitorPages.FormatTime: covers whole, non-negative seconds, the only values the server could send. An undefined ETA is modelled separately by `MonitorPages.EtaText`.
- Text.ToLower: lowers the ASCII letters only, which covers every status the server uses; full Unicode case mapping is not modelled.
- Text.JoinPath: does not clean `.` and `..` elements, which `filepath.Join` would.
- ApiClient.ListMigrationsPath: states only the default window; the query's round trip through the server's parser is `Routes.ListQueryRoundTrip`.
- ApiClient.MessageText: no longer promises a non-empty text for every truthy message. An empty array is truthy and `String([])` is empty, so that promise would be false of the source; it is kept for every message that is not an array. Numbers in a message are integers, so `String` of a fraction is not modelled.
- SelectPage.Render: when the list's render throws on a result without a volume list, what the page is replaced by is decided by the error boundary that `webui/src/main.tsx` wraps around the app. `webui/src/components/ErrorBoundary.tsx` is not part of this model, so the screen is only named as thrown.
- Routes.Route: gin's router is not part of this model. Its trailing-slash rule is stated for this route table only, not as a general tree walk. The `X-Forwarded-Prefix` header, which gin puts in front of a redirect's location, is not modelled.
- Source inconsistencies. Where they occur the model follows what the code evidently intends:
  - `handler/scan_handler.go:42` calls the folder-details scan with one argument where it takes two; the model always passes the recycle-bin choice.
  - The worker calls `UploadFile` with two arguments where it declares four (`worker/migration_worker.go:316`).
  - The service reads an `Error` field that the task row does not declare (`service/migration_service.go:124,144`); the model gives the row an `error` text.
  - The worker sets an `ETA` that the status struct does not declare (`worker/migration_worker.go:211`). The model's status carries no ETA, which is also what the client receives (`MonitorPages.EtaIsNeverShown`).
  - `main.go:72-73` routes pause and resume to handler methods that `handler/migration_handler.go` does not define. The model routes them (`Routes.Route`), and their handling is not part of this model.
  - The login slices the token to ten bytes for its log line (`service/zimaos_client.go:195`), which panics on a shorter token before the handler's own slice at line 44 (`MigrationHandler.ShownTokenLength`).
  - `webui/src/components/StorageSelector.tsx` does not fit the rest of the client. It takes `storageDevices`, `setStorageDevices`, `selectedStorage`, `setSelectedStorage`, `customSubPath` and `setCustomSubPath` from `useAppStore` (lines 64-73), which defines none of them. It calls `api.getStorageList` (line 97), which `webui/src/api/client.ts` does not define. No page imports it, and as written its mount effect (line 84) would throw on `customSubPath.startsWith`. The `StorageSelector` members model the component as evidently intended, with that state as its own.
- The configuration page's options carry no recycle-bin choice, so the server reads it as false (`ConfigPage.InitialOptions`).
- `alert` and `confirm` dialogs: a confirmation is a boolean parameter.

## Findings

| source | as written | input that shows it | evidently intended | confidence | as-written member | corrected member |
|---|---|---|---|---|---|---|
| service/migration_service.go:171-185 | `CancelTask` marks only the table row cancelled. `GetTaskStatus` (lines 117-125) answers from the runtime cache first, and the worker stops on a cancelled row without touching the cache (`worker/migration_worker.go:156-158`). | a running task with a cached `running` status, cancelled through the API: every later status query still answers `running` (`MigrationHandler.CancelThenStatusRunning`) | a cancelled task reads as cancelled, as `MigrationService.CancelIsReported` proves of the corrected cancel, and the worker's counter changes keep it so (`MigrationWorker.CancelSurvivesProgress`); the worker's own row save can still undo the cancel in the row, which is the next row | not executed | MigrationService.CancelKeepsCachedRunning | MigrationService.CancelTaskSynced |
| worker/migration_worker.go:218-222 | After a transferred file, once a second has passed since the last status write, the worker saves with `UpdateTask` (a `Save` of every column) the row it re-read at line 150, before the upload. A status set in the meantime is overwritten. | a running task cancelled through the API while a file uploads: the save writes `running` back, the next re-read sees `running`, and the run carries on to completion | the checkpoint writes only the counter columns, so the cancel stays in the row (`MigrationWorker.CancelSurvivesCounterSave`) | not executed | MigrationWorker.CancelLostToCheckpoint | MigrationWorker.SaveCounters |
| worker/migration_worker.go:165-171 | The resume poll declares a new `task` (line 165) and saves only that one as running (line 171). The row re-read at line 150 still says `paused`, and the throttled save at line 222 writes it back. That save always happens on the resume step when its file transfers, because the wait slept at least five seconds (line 164) since the last status write. | a paused task resumed by setting it pending, whose next file uploads: the row reads `paused` again after that file, and the worker waits once more (`MigrationWorker.ResumeUndoneByCheckpoint`) | the resume keeps the task running, because the checkpoint writes only the counter columns (`MigrationWorker.ResumeSurvivesCounterSave`) | not executed | MigrationWorker.ResumeUndoneByCheckpoint | MigrationWorker.SaveCounters |
