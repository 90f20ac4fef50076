/** The migration worker's task run (worker/migration_worker.go, `processTask` and its helpers).
    A run reads the task row once when it is picked up; everything it meets afterwards — the
    login answer, the source trees, the status it re-reads before each file, the answers to
    folder creation and the outcome of each upload attempt — is a parameter. What the run does to
    the store is returned as the ordered list of its writes. */
module MigrationWorker {
  import opened Wrappers
  import opened Text
  import opened JsonValue
  import opened Types
  import opened TaskModel
  import opened MigrationService
  import opened FileTree
  import ZimaosClient
  import Scanner

  // ----- Stored options and folder list -----

  /** The options used when the stored options text cannot be decoded: skip errors and preserve
      times, everything else off. */
  const FallbackOptions: MigrationOptions := MigrationOptions(false, true, true, false)

  /** The options a run works with. */
  function RunOptions(t: JsonText): (o: MigrationOptions)
    ensures t.Malformed? ==> o == FallbackOptions
    ensures t.Parsed? && OptionsFromJson(t.value).Ok? ==> o == OptionsFromJson(t.value).value
    ensures t.Parsed? && OptionsFromJson(t.value).Err? ==> o == FallbackOptions
  {
    match t
    case Malformed => FallbackOptions
    case Parsed(j) => if OptionsFromJson(j).Ok? then OptionsFromJson(j).value else FallbackOptions
  }

  /** A task created through the service runs with exactly the options it was created with. */
  lemma StoredOptionsUsed(o: MigrationOptions)
    ensures RunOptions(Parsed(OptionsToJson(o))) == o
  {
    OptionsRoundTrip(o);
  }

  /** Decoding the stored folder list strictly, as the run does: anything but `null` or an array
      of strings is an error (None). */
  function RunFolders(t: JsonText): (r: Option<seq<string>>)
    ensures r.Some? <==> t.Parsed? && (t.value.JNull? ||
                                       (t.value.JArray? && forall i :: 0 <= i < |t.value.items| ==> t.value.items[i].JString?))
  {
    if t.Parsed? && t.value.JNull? then Some([])
    else if t.Parsed? && t.value.JArray? && forall i :: 0 <= i < |t.value.items| ==> t.value.items[i].JString? then
      Some(DecodeStringList(t))
    else None
  }

  /** Whenever the run accepts the stored list, it reads the same folders that a status query
      reports for the task. */
  lemma RunFoldersAgreeWithStatus(t: JsonText)
    requires RunFolders(t).Some?
    ensures RunFolders(t).value == DecodeStringList(t)
  {
  }

  /** The folders of a task created through the service are read back unchanged. */
  lemma CreatedFoldersRead(folders: seq<string>)
    ensures RunFolders(Parsed(StringArray(folders))) == Some(folders)
  {
    StringListRoundTrip(folders);
  }

  // ----- scanFolders -----

  /** A file to migrate: the source folder it was found under, its path relative to that folder,
      the elements of its destination path, and its size. */
  datatype WorkItem = WorkItem(folder: string, rel: seq<string>, remote: seq<string>, size: nat)

  /** The destination of a file: the base path, the source folder's own name, then the file's
      relative path, as the elements `filepath.Join` receives. */
  /** Where a file lands: under the base path, in a directory named like the folder's last
      element, at the same path below it as below the folder. */
  function RemotePath(basePath: string, folder: string, rel: seq<string>): (r: seq<string>)
    ensures |r| == |rel| + 2 && r[0] == basePath && r[1] == PathBase(folder) && r[2..] == rel
  {
    [basePath, PathBase(folder)] + rel
  }

  /** Two files of one folder never land on the same remote path. */
  lemma RemotePathInjective(basePath: string, folder: string, rel1: seq<string>, rel2: seq<string>)
    requires RemotePath(basePath, folder, rel1) == RemotePath(basePath, folder, rel2)
    ensures rel1 == rel2
  {
  }

  function ItemSizes(items: seq<WorkItem>): nat {
    if |items| == 0 then 0 else items[0].size + ItemSizes(items[1..])
  }

  lemma {:induction false} ItemSizesConcat(a: seq<WorkItem>, b: seq<WorkItem>)
    ensures ItemSizes(a + b) == ItemSizes(a) + ItemSizes(b)
  {
    if |a| > 0 {
      assert (a + b)[1..] == a[1..] + b;
      ItemSizesConcat(a[1..], b);
    } else {
      assert a + b == b;
    }
  }

  /** The work items for the files kept under one folder, in walk order. */
  function ItemsOf(folder: string, basePath: string, es: seq<FileEntry>): (r: seq<WorkItem>)
    ensures |r| == |es| && ItemSizes(r) == SumSizes(es)
    ensures forall k :: 0 <= k < |r| ==> r[k] == WorkItem(folder, es[k].rel, RemotePath(basePath, folder, es[k].rel), es[k].size)
  {
    if |es| == 0 then []
    else
      var rest := ItemsOf(folder, basePath, es[1..]);
      assert Sizes(es) == [es[0].size] + Sizes(es[1..]);
      [WorkItem(folder, es[0].rel, RemotePath(basePath, folder, es[0].rel), es[0].size)] + rest
  }

  /** The tree found at a folder path, if the path can be read. */
  function TreeAt(trees: map<string, FsNode>, folder: string): Option<FsNode> {
    if folder in trees then Some(trees[folder]) else None
  }

  /** `scanFolders`: every folder is walked in turn and its kept files appended; a folder that
      cannot be read contributes nothing. The total is the sum of the listed sizes, and every
      item's destination is its relative path under the base path and its folder's name. */
  function ScanFolders(folders: seq<string>, trees: map<string, FsNode>, basePath: string, includeRecycle: bool)
    : (r: (seq<WorkItem>, nat))
    ensures r.1 == ItemSizes(r.0)
    ensures forall k :: 0 <= k < |r.0| ==> r.0[k].folder in folders
    ensures forall k :: 0 <= k < |r.0| ==> r.0[k].remote == RemotePath(basePath, r.0[k].folder, r.0[k].rel)
  {
    if |folders| == 0 then ([], 0)
    else
      var here := ItemsOf(folders[0], basePath, WalkRoot(TreeAt(trees, folders[0]), includeRecycle));
      var rest := ScanFolders(folders[1..], trees, basePath, includeRecycle);
      ItemSizesConcat(here, rest.0);
      var items := here + rest.0;
      forall k | |here| <= k < |items|
        ensures items[k] == rest.0[k - |here|] && items[k].folder in folders
      {
        assert rest.0[k - |here|].folder in folders[1..];
      }
      (items, ItemSizes(here) + rest.1)
  }

  predicate OutsidePruned(items: seq<WorkItem>, includeRecycle: bool) {
    forall k, j :: 0 <= k < |items| && 0 <= j < |items[k].rel| - 1 ==> !SkipsDir(items[k].rel[j], includeRecycle)
  }

  /** No listed file lies below a pruned directory: every directory between the source folder
      and the file is neither `@…` nor, unless the recycle bin is included, `#recycle`. */
  lemma {:induction false} ScanFoldersPrunes(folders: seq<string>, trees: map<string, FsNode>, basePath: string,
                                             includeRecycle: bool)
    ensures OutsidePruned(ScanFolders(folders, trees, basePath, includeRecycle).0, includeRecycle)
  {
    if |folders| > 0 {
      var es := WalkRoot(TreeAt(trees, folders[0]), includeRecycle);
      var here := ItemsOf(folders[0], basePath, es);
      var rest := ScanFolders(folders[1..], trees, basePath, includeRecycle);
      ScanFoldersPrunes(folders[1..], trees, basePath, includeRecycle);
      var items := here + rest.0;
      assert items == ScanFolders(folders, trees, basePath, includeRecycle).0;
      forall k, j | 0 <= k < |items| && 0 <= j < |items[k].rel| - 1
        ensures !SkipsDir(items[k].rel[j], includeRecycle)
      {
        if k < |here| {
          assert items[k] == here[k];
          assert es[k] in es && items[k].rel == es[k].rel;
          assert !SkipsDir(es[k].rel[j], includeRecycle);
        } else {
          var m := k - |here|;
          assert items[k] == rest.0[m];
          assert 0 <= m < |rest.0| && 0 <= j < |rest.0[m].rel| - 1;
          assert !SkipsDir(rest.0[m].rel[j], includeRecycle);
        }
      }
    }
  }

  /** For a single folder, the run's file count and total size are exactly the folder details
      the scanner reports for it. */
  lemma WorkerTotalsMatchDetails(folder: string, tree: FsNode, basePath: string, includeRecycle: bool)
    requires tree.Dir? && tree.modified.Some?
    ensures var scanned := ScanFolders([folder], map[folder := tree], basePath, includeRecycle);
      var details := Scanner.GetFolderDetails(folder, Some(tree), includeRecycle);
      details.Ok? && |scanned.0| == details.value.fileCount && scanned.1 == details.value.size
  {
    var es := WalkRoot(Some(tree), includeRecycle);
    var here := ItemsOf(folder, basePath, es);
    var rest := ScanFolders([folder][1..], map[folder := tree], basePath, includeRecycle);
    assert rest == ([], 0);
    assert here + rest.0 == here;
  }

  // ----- uploadFileWithRetry -----

  /** Whether upload attempt `i` succeeds; attempts beyond the given outcomes fail. */
  predicate AttemptOk(outcomes: seq<bool>, i: nat) {
    i < |outcomes| && outcomes[i]
  }

  /** The reference outcome: some attempt below `maxRetries` succeeds. */
  predicate UploadSucceeds(maxRetries: int, outcomes: seq<bool>) {
    exists i :: 0 <= i < maxRetries && AttemptOk(outcomes, i)
  }

  function Pow2(k: nat): nat {
    if k == 0 then 1 else 2 * Pow2(k - 1)
  }

  /** `uploadFileWithRetry`: attempts are made in order until one succeeds or `maxRetries` have
      been made (none at all when `maxRetries <= 0`, which is a failure). After failed attempt
      `i` the worker sleeps `2^i` seconds unless it was the last allowed one. Returns whether the
      upload succeeded, how many attempts were made, and the sleeps in seconds. */
  method UploadWithRetry(maxRetries: int, outcomes: seq<bool>) returns (ok: bool, attempts: nat, sleeps: seq<nat>)
    ensures ok <==> UploadSucceeds(maxRetries, outcomes)
    ensures attempts <= (if maxRetries > 0 then maxRetries else 0)
    ensures ok ==> attempts >= 1 && AttemptOk(outcomes, attempts - 1)
    ensures !ok ==> attempts == (if maxRetries > 0 then maxRetries else 0)
    ensures forall i :: 0 <= i < attempts - 1 ==> !AttemptOk(outcomes, i)
    ensures |sleeps| == (if attempts == 0 then 0 else attempts - 1)
    ensures forall k :: 0 <= k < |sleeps| ==> sleeps[k] == Pow2(k)
  {
    ok, attempts, sleeps := false, 0, [];
    var i := 0;
    while i < maxRetries
      invariant 0 <= i <= (if maxRetries > 0 then maxRetries else 0)
      invariant attempts == i
      invariant forall j :: 0 <= j < i ==> !AttemptOk(outcomes, j)
      invariant |sleeps| == (if i > 0 && i == maxRetries then i - 1 else i)
      invariant forall k :: 0 <= k < |sleeps| ==> sleeps[k] == Pow2(k)
      decreases maxRetries - i
    {
      attempts := i + 1;
      if AttemptOk(outcomes, i) {
        ok := true;
        return;
      }
      if i < maxRetries - 1 {
        sleeps := sleeps + [Pow2(i)];
      }
      i := i + 1;
    }
  }

  // ----- The pause gate -----

  /** How waiting on a paused task ends: resumed at poll `at`, given up (a lookup error or a
      cancel), or still waiting when the polls run out. */
  datatype Gate = Resumed(at: nat) | GaveUp | StillWaiting

  /** Each poll is the status read after a five-second sleep, or None when the lookup fails. */
  function PauseGate(polls: seq<Option<string>>): (g: Gate)
    ensures g.Resumed? ==> g.at < |polls| && polls[g.at] == Some(StatusPending) &&
                           forall j :: 0 <= j < g.at ==> Waits(polls[j])
    ensures g.GaveUp? ==> exists k :: 0 <= k < |polls| && (polls[k].None? || polls[k] == Some(StatusCancelled)) &&
                                      forall j :: 0 <= j < k ==> Waits(polls[j])
    ensures g.StillWaiting? <==> forall j :: 0 <= j < |polls| ==> Waits(polls[j])
  {
    if |polls| == 0 then StillWaiting
    else if polls[0].None? || polls[0] == Some(StatusCancelled) then GaveUp
    else if polls[0] == Some(StatusPending) then Resumed(0)
    else
      match PauseGate(polls[1..])
      case Resumed(k) => Resumed(k + 1)
      case GaveUp =>
        var k :| 0 <= k < |polls[1..]| && (polls[1..][k].None? || polls[1..][k] == Some(StatusCancelled)) &&
                 forall j :: 0 <= j < k ==> Waits(polls[1..][j]);
        assert polls[k + 1] == polls[1..][k];
        assert forall j :: 1 <= j < k + 1 ==> polls[j] == polls[1..][j - 1];
        GaveUp
      case StillWaiting =>
        assert forall j :: 1 <= j < |polls| ==> polls[j] == polls[1..][j - 1];
        StillWaiting
  }

  /** A poll that keeps the worker waiting: a status other than cancelled or pending. */
  predicate Waits(p: Option<string>) {
    p.Some? && p.value != StatusCancelled && p.value != StatusPending
  }

  /** Only `pending` releases a paused task: setting it straight back to `running` leaves the
      worker waiting. */
  lemma RunningDoesNotResume(polls: seq<Option<string>>)
    requires forall j :: 0 <= j < |polls| ==> polls[j] == Some(StatusRunning)
    ensures PauseGate(polls) == StillWaiting
  {
    StatusesDistinct();
    assert StatusRunning != StatusCancelled && StatusRunning != StatusPending;
  }

  /** The statuses the pause polls read, None where the lookup failed. */
  function PollStatuses(polls: seq<Option<TaskRecord>>): (r: seq<Option<string>>)
    ensures |r| == |polls|
    ensures forall j :: 0 <= j < |polls| ==> (r[j].Some? <==> polls[j].Some?) &&
                                             (polls[j].Some? ==> r[j].value == polls[j].value.status)
  {
    seq(|polls|, j requires 0 <= j < |polls| => if polls[j].Some? then Some(polls[j].value.status) else None)
  }

  // ----- The writes a run makes -----

  /** A write the run makes: saving a whole row (`UpdateTask`), caching a new live status
      (`UpdateTaskStatus`), changing the counters of the live status already cached, or storing
      that status again with a new update time. The cache holds the worker's own status record
      from the moment the loop starts, so counter changes are visible without a write, and storing
      the same record again changes only its update time. */
  datatype Effect =
    | SaveRow(row: TaskRecord)
    | PutStatus(status: TaskStatus)
    | Progress(counters: Counters)
    | Stamp(at: Time)

  /** The row the throttled write at the end of a transferred file saves: the row as re-read
      before that file, with the live counters. The progress percentage is not recomputed. */
  function Checkpoint(row: TaskRecord, c: Counters): (r: TaskRecord)
    ensures r.id == row.id && r.taskId == row.taskId && r.status == row.status && r.completedAt == row.completedAt
    ensures r.processedFiles == c.processed && r.failedFiles == c.failed && r.transferredSize == c.transferred
    ensures r.totalFiles == row.totalFiles && r.totalSize == row.totalSize
  {
    row.(processedFiles := c.processed, transferredSize := c.transferred, failedFiles := c.failed)
  }

  /** Both rows have the same primary key and task id. */
  predicate SameKey(a: TaskRecord, b: TaskRecord) {
    a.id == b.id && a.taskId == b.taskId
  }

  /** Every row the writes save is the task's own row (same key and task id). */
  predicate OwnRows(effects: seq<Effect>, t: TaskRecord) {
    forall k :: 0 <= k < |effects| && effects[k].SaveRow? ==> SameKey(effects[k].row, t)
  }

  // ----- The per-file loop -----

  /** The live counters: files uploaded (as a position, see `StepFile`), files that failed, and
      bytes transferred. */
  datatype Counters = Counters(processed: nat, failed: nat, transferred: nat)

  predicate Le(a: Counters, b: Counters) {
    a.processed <= b.processed && a.failed <= b.failed && a.transferred <= b.transferred
  }

  /** What a run meets at one file: the row re-read before it (None when the lookup fails), the
      rows the pause polls read if it is paused, the answer to creating the destination folder
      (None when the request fails), the outcome of each upload attempt, and whether at least a
      second has passed since the last status write when the file is done (the clock is not
      modelled otherwise). */
  datatype FileStep = FileStep(lookup: Option<TaskRecord>, polls: seq<Option<TaskRecord>>,
                               folder: Option<ZimaosClient.Response>, uploads: seq<bool>, throttled: bool)

  /** Every row the step reads is the task's own: `GetTask` looks rows up by task id, and no row
      is ever deleted. */
  predicate OwnLookups(s: FileStep, t: TaskRecord) {
    (s.lookup.Some? ==> SameKey(s.lookup.value, t)) &&
    forall j :: 0 <= j < |s.polls| && s.polls[j].Some? ==> SameKey(s.polls[j].value, t)
  }

  /** Whether the destination folder exists after the create-folder request. */
  predicate FolderReady(answer: Option<ZimaosClient.Response>) {
    answer.Some? && !ZimaosClient.ClassifyCreateFolder(answer.value).FolderFailed?
  }

  /** Whether the file reaches the destination: its folder is ready and an upload attempt
      succeeds. */
  predicate Transferred(s: FileStep, maxRetries: int) {
    FolderReady(s.folder) && UploadSucceeds(maxRetries, s.uploads)
  }

  /** How the loop ends. `Finished`: every file was handled. `LookupFailed`: re-reading the task
      failed, which leaves the loop as if it had finished. `Stopped`: the task was cancelled, or
      given up while paused; the run returns without another write. `Paused`: still waiting to
      be resumed. `Aborted`: a file failed without skip-errors; `row` is the row re-read before
      that file, which `failTask` then saves. */
  datatype LoopEnd =
    | Finished(c: Counters)
    | LookupFailed(c: Counters)
    | Stopped(c: Counters)
    | Paused(c: Counters)
    | Aborted(c: Counters, message: string, row: TaskRecord)

  /** One iteration's result with the writes it made. */
  datatype StepOutcome = Next(counters: Counters, effects: seq<Effect>) | Halt(end: LoopEnd, effects: seq<Effect>)

  /** The loop's writes keep within `lo` and `hi`: no saved row is cancelled, and every counter
      change lies between the two. */
  predicate LoopEffects(effects: seq<Effect>, lo: Counters, hi: Counters) {
    (forall k :: 0 <= k < |effects| && effects[k].SaveRow? ==> effects[k].row.status != StatusCancelled) &&
    (forall k :: 0 <= k < |effects| && effects[k].Progress? ==> Le(lo, effects[k].counters) && Le(effects[k].counters, hi))
  }

  /** One iteration for file `i`. A cancelled re-read, a failed lookup, or giving up while paused
      ends the loop with the counters as they were and nothing written. A resume first saves the
      polled row as running. A transferred file sets the processed count to `i + 1` and adds its
      size; a failed one only counts a failure when errors are skipped, and aborts otherwise. When
      a second has passed after a transferred file, the live status is stored again and the row
      re-read before the file — not the polled one, and not re-read again — is saved with the
      live counters, whatever its status has become since. */
  function StepFile(f: WorkItem, s: FileStep, skipErrors: bool, maxRetries: int, i: nat, c: Counters, now: Time)
    : (r: StepOutcome)
    ensures s.lookup.None? ==> r == Halt(LookupFailed(c), [])
    ensures s.lookup.Some? && s.lookup.value.status == StatusCancelled ==> r == Halt(Stopped(c), [])
    ensures r.Next? && Transferred(s, maxRetries) ==> r.counters == Counters(i + 1, c.failed, c.transferred + f.size)
    ensures r.Next? && !Transferred(s, maxRetries) ==> skipErrors && r.counters == c.(failed := c.failed + 1)
    ensures r.Halt? ==> r.end.c == c
    ensures r.Halt? && r.end.Aborted? ==> !skipErrors && !Transferred(s, maxRetries) && s.lookup == Some(r.end.row)
    ensures r.Halt? && s.lookup.Some? && s.lookup.value.status != StatusPaused ==>
              r.effects == [] && (r.end.Aborted? || s.lookup.value.status == StatusCancelled)
    ensures r.Next? ==> LoopEffects(r.effects, r.counters, r.counters)
    ensures r.Halt? ==> LoopEffects(r.effects, c, c)
  {
    match s.lookup
    case None => Halt(LookupFailed(c), [])
    case Some(row) =>
      if row.status == StatusCancelled then Halt(Stopped(c), [])
      else
        var gate := if row.status == StatusPaused then PauseGate(PollStatuses(s.polls)) else Resumed(0);
        if gate.GaveUp? then Halt(Stopped(c), [])
        else if gate.StillWaiting? then Halt(Paused(c), [])
        else
          var resumed := if row.status == StatusPaused then [SaveRow(s.polls[gate.at].value.(status := StatusRunning))]
                         else [];
          if !FolderReady(s.folder) || !UploadSucceeds(maxRetries, s.uploads) then
            var message := if !FolderReady(s.folder) then "failed to create folder" else "failed to upload file";
            if skipErrors then Next(c.(failed := c.failed + 1), resumed + [Progress(c.(failed := c.failed + 1))])
            else Halt(Aborted(c, message, row), resumed)
          else
            var c' := Counters(i + 1, c.failed, c.transferred + f.size);
            var written := if s.throttled then [Stamp(now), SaveRow(Checkpoint(row, c'))] else [];
            Next(c', resumed + [Progress(c')] + written)
  }

  /** After a transferred file the step's last writes are the counter change, then, on a
      throttled step, the status stored again and the re-read row saved with the new counters. */
  lemma StepCheckpoint(f: WorkItem, s: FileStep, skipErrors: bool, maxRetries: int, i: nat, c: Counters, now: Time)
    ensures var r := StepFile(f, s, skipErrors, maxRetries, i, c, now);
      (r.Next? && Transferred(s, maxRetries) && s.throttled ==>
         |r.effects| >= 3 && r.effects[|r.effects| - 1] == SaveRow(Checkpoint(s.lookup.value, r.counters)) &&
         r.effects[|r.effects| - 2] == Stamp(now) && r.effects[|r.effects| - 3] == Progress(r.counters)) &&
      (r.Next? && !(Transferred(s, maxRetries) && s.throttled) ==>
         |r.effects| >= 1 && r.effects[|r.effects| - 1] == Progress(r.counters))
  {
  }

  /** A step that goes on after a pause first saves the row the releasing poll read, set back to
      running; a step of a task that was not paused saves no row but, possibly, the checkpoint. */
  lemma StepResume(f: WorkItem, s: FileStep, skipErrors: bool, maxRetries: int, i: nat, c: Counters, now: Time)
    ensures var r := StepFile(f, s, skipErrors, maxRetries, i, c, now);
      ((r.Next? || r.end.Aborted?) && s.lookup.value.status == StatusPaused ==>
         var gate := PauseGate(PollStatuses(s.polls));
         gate.Resumed? && |r.effects| >= 1 && r.effects[0] == SaveRow(s.polls[gate.at].value.(status := StatusRunning))) &&
      ((r.Next? || r.end.Aborted?) && s.lookup.value.status != StatusPaused ==>
         forall k :: 0 <= k < |r.effects| - 1 ==> !r.effects[k].SaveRow?)
  {
  }

  /** The counters a run may hold after handling the first `i` files. */
  predicate Bounded(c: Counters, items: seq<WorkItem>, i: nat)
    requires i <= |items|
  {
    c.processed <= i && c.failed <= i && c.transferred <= ItemSizes(items[..i])
  }

  predicate Monotone(trail: seq<Counters>) {
    forall j, k :: 0 <= j < k < |trail| ==> Le(trail[j], trail[k])
  }

  /** Counters within the bounds after `i` files are within the bounds after any later file. */
  lemma BoundedGrows(items: seq<WorkItem>, i: nat, j: nat, c: Counters)
    requires i <= j <= |items| && Bounded(c, items, i)
    ensures Bounded(c, items, j)
  {
    assert items[..j] == items[..i] + items[i..j];
    ItemSizesConcat(items[..i], items[i..j]);
  }

  /** A handled file keeps the counters within the bounds: the processed and failed counts grow
      by at most one and the transferred size by at most the file's size. */
  lemma NextBounded(items: seq<WorkItem>, i: nat, c: Counters, c': Counters)
    requires i < |items| && Bounded(c, items, i)
    requires c'.processed <= i + 1 && c'.failed <= c.failed + 1 && c'.transferred <= c.transferred + items[i].size
    ensures Bounded(c', items, i + 1)
  {
    assert items[..i + 1] == items[..i] + [items[i]];
    ItemSizesConcat(items[..i], [items[i]]);
    assert ItemSizes([items[i]]) == items[i].size + ItemSizes([]);
  }

  /** Putting the counters after one more file in front of a monotone trail above them keeps
      the trail monotone and above the counters before that file. */
  lemma TrailCons(c: Counters, c': Counters, rest: seq<Counters>, last: Counters)
    requires Le(c, c') && Le(c', last) && Monotone(rest)
    requires forall k :: 0 <= k < |rest| ==> Le(c', rest[k]) && Le(rest[k], last)
    requires |rest| > 0 ==> rest[|rest| - 1] == last
    ensures Monotone([c'] + rest)
    ensures forall k :: 0 <= k < |[c'] + rest| ==> Le(c, ([c'] + rest)[k]) && Le(([c'] + rest)[k], last)
    ensures ([c'] + rest)[|[c'] + rest| - 1] == last || |rest| == 0
  {
    var trail := [c'] + rest;
    assert forall k :: 1 <= k < |trail| ==> trail[k] == rest[k - 1];
  }

  /** The writes of one step followed by those of the rest of the loop keep within the bounds of
      the whole loop. */
  lemma LoopEffectsConcat(a: seq<Effect>, b: seq<Effect>, lo: Counters, mid: Counters, hi: Counters)
    requires LoopEffects(a, mid, mid) && LoopEffects(b, mid, hi) && Le(lo, mid) && Le(mid, hi)
    ensures LoopEffects(a + b, lo, hi)
  {
    var ab := a + b;
    assert forall k :: 0 <= k < |a| ==> ab[k] == a[k];
    assert forall k :: |a| <= k < |ab| ==> ab[k] == b[k - |a|];
  }

  /** The loop's end, the trail of counter values it passes through (one per handled file), and
      the writes it made. */
  datatype LoopRun = LoopRun(end: LoopEnd, trail: seq<Counters>, effects: seq<Effect>)

  /** The loop from file `i` on. The counters never decrease along the trail, end where the trail
      ends, and stay within the file count and the total size. The loop never saves a cancelled
      row, and every counter change it makes lies between the starting and the final counters. */
  function RunFiles(items: seq<WorkItem>, steps: nat -> FileStep, skipErrors: bool, maxRetries: int,
                    i: nat, c: Counters, now: Time): (r: LoopRun)
    requires i <= |items| && Bounded(c, items, i)
    ensures Bounded(r.end.c, items, |items|)
    ensures Le(c, r.end.c) && Monotone(r.trail)
    ensures forall k :: 0 <= k < |r.trail| ==> Le(c, r.trail[k]) && Le(r.trail[k], r.end.c)
    ensures |r.trail| > 0 ==> r.trail[|r.trail| - 1] == r.end.c
    ensures LoopEffects(r.effects, c, r.end.c)
    decreases |items| - i
  {
    if i == |items| then
      assert items[..i] == items;
      LoopRun(Finished(c), [], [])
    else
      match StepFile(items[i], steps(i), skipErrors, maxRetries, i, c, now)
      case Halt(end, written) =>
        BoundedGrows(items, i, |items|, c);
        LoopRun(end, [], written)
      case Next(c', written) =>
        NextBounded(items, i, c, c');
        var rest := RunFiles(items, steps, skipErrors, maxRetries, i + 1, c', now);
        TrailCons(c, c', rest.trail, rest.end.c);
        LoopEffectsConcat(written, rest.effects, c, c', rest.end.c);
        LoopRun(rest.end, [c'] + rest.trail, written + rest.effects)
  }

  /** A step whose reads are all the task's own row saves only that row, and aborts on it. */
  lemma StepOwnRows(f: WorkItem, s: FileStep, skipErrors: bool, maxRetries: int, i: nat, c: Counters, now: Time,
                    t: TaskRecord)
    requires OwnLookups(s, t)
    ensures var r := StepFile(f, s, skipErrors, maxRetries, i, c, now);
      OwnRows(r.effects, t) && (r.Halt? && r.end.Aborted? ==> SameKey(r.end.row, t))
  {
    var r := StepFile(f, s, skipErrors, maxRetries, i, c, now);
    if s.lookup.Some? && s.lookup.value.status == StatusPaused && (r.Next? || r.end.Aborted?) {
      var gate := PauseGate(PollStatuses(s.polls));
      assert s.polls[gate.at].Some?;
    }
  }

  /** When every row the loop reads is the task's own, so is every row it saves, and the row an
      abort hands to `failTask`. */
  lemma {:induction false} RunFilesOwnRows(items: seq<WorkItem>, steps: nat -> FileStep, skipErrors: bool,
                                           maxRetries: int, i: nat, c: Counters, now: Time, t: TaskRecord)
    requires i <= |items| && Bounded(c, items, i)
    requires forall k :: OwnLookups(steps(k), t)
    ensures var r := RunFiles(items, steps, skipErrors, maxRetries, i, c, now);
      OwnRows(r.effects, t) && (r.end.Aborted? ==> SameKey(r.end.row, t))
    decreases |items| - i
  {
    if i < |items| {
      var step := StepFile(items[i], steps(i), skipErrors, maxRetries, i, c, now);
      StepOwnRows(items[i], steps(i), skipErrors, maxRetries, i, c, now, t);
      if step.Next? {
        NextBounded(items, i, c, step.counters);
        RunFilesOwnRows(items, steps, skipErrors, maxRetries, i + 1, step.counters, now, t);
        var rest := RunFiles(items, steps, skipErrors, maxRetries, i + 1, step.counters, now);
        assert RunFiles(items, steps, skipErrors, maxRetries, i, c, now).effects == step.effects + rest.effects;
        OwnRowsConcat(step.effects, rest.effects, t);
      }
    }
  }

  lemma OwnRowsConcat(a: seq<Effect>, b: seq<Effect>, t: TaskRecord)
    requires OwnRows(a, t) && OwnRows(b, t)
    ensures OwnRows(a + b, t)
  {
    assert forall k :: |a| <= k < |a + b| ==> (a + b)[k] == b[k - |a|];
  }

  /** Processed counts a position, not a number of uploads: after a skipped failure, a later
      success raises `processed` to the position, so processed plus failed can exceed the number
      of files. */
  lemma ProcessedPlusFailedCanExceedTotal(a: WorkItem, b: WorkItem, row: TaskRecord, ok: ZimaosClient.Response,
                                          now: Time)
    requires ok.status == 200 && row.status == StatusRunning
    ensures var steps := (k: nat) => FileStep(Some(row), [], Some(ok), if k == 0 then [] else [true], false);
      var run := RunFiles([a, b], steps, true, 1, 0, Counters(0, 0, 0), now);
      run.end == Finished(Counters(2, 1, b.size)) && run.end.c.processed + run.end.c.failed > 2
  {
    var steps := (k: nat) => FileStep(Some(row), [], Some(ok), if k == 0 then [] else [true], false);
    var items := [a, b];
    StatusesDistinct();
    assert !UploadSucceeds(1, steps(0).uploads);
    assert AttemptOk(steps(1).uploads, 0);
    assert StepFile(a, steps(0), true, 1, 0, Counters(0, 0, 0), now).counters == Counters(0, 1, 0);
    assert StepFile(b, steps(1), true, 1, 1, Counters(0, 1, 0), now).counters == Counters(2, 1, b.size);
    assert items[..0] == [] && items[..1] == [a] && items[..2] == items;
    assert ItemSizes([a]) == a.size + ItemSizes([]);
    assert items[1..] == [b] && [b][1..] == [];
    assert ItemSizes(items) == a.size + b.size;
    assert RunFiles(items, steps, true, 1, 2, Counters(2, 1, b.size), now).end == Finished(Counters(2, 1, b.size));
    assert RunFiles(items, steps, true, 1, 1, Counters(0, 1, 0), now).end == Finished(Counters(2, 1, b.size));
  }

  // ----- Applying the writes -----

  /** Changing the live counters of a task in the cache (nothing happens if none is cached). */
  function ApplyProgress(st: ServiceState, taskId: string, c: Counters): (r: ServiceState)
    ensures r.rows == st.rows && r.cache.Keys == st.cache.Keys
    ensures taskId in st.cache ==> r.cache[taskId] == st.cache[taskId].(processedFiles := c.processed,
                                     failedFiles := c.failed, transferredSize := c.transferred)
    ensures forall k :: k in st.cache && k != taskId ==> r.cache[k] == st.cache[k]
  {
    if taskId in st.cache then
      st.(cache := st.cache[taskId := st.cache[taskId].(processedFiles := c.processed, failedFiles := c.failed,
                                                        transferredSize := c.transferred)])
    else st
  }

  /** One write of task `taskId`'s run, made at `now`. */
  function ApplyEffect(st: ServiceState, taskId: string, e: Effect, now: Time): (r: ServiceState)
    ensures !e.SaveRow? ==> r.rows == st.rows
    ensures e.SaveRow? ==> r.cache == st.cache
    ensures e.Progress? || e.Stamp? ==> r.cache.Keys == st.cache.Keys
  {
    match e
    case SaveRow(row) => SaveTask(st, row, now)
    case PutStatus(status) => UpdateTaskStatus(st, taskId, status)
    case Progress(c) => ApplyProgress(st, taskId, c)
    case Stamp(at) =>
      if taskId in st.cache then st.(cache := st.cache[taskId := st.cache[taskId].(updatedAt := at)]) else st
  }

  /** The writes of task `taskId`'s run, in order. Without a row save the table is unchanged. */
  function ApplyEffects(st: ServiceState, taskId: string, effects: seq<Effect>, now: Time): (r: ServiceState)
    ensures (forall k :: 0 <= k < |effects| ==> !effects[k].SaveRow?) ==> r.rows == st.rows
    decreases |effects|
  {
    if |effects| == 0 then st
    else ApplyEffects(ApplyEffect(st, taskId, effects[0], now), taskId, effects[1..], now)
  }

  /** Counter changes never alter the status a task is reported with: once a cancel has marked
      the cached status cancelled, the worker finishing its current file does not bring back
      "running" through the cache. */
  lemma ProgressKeepsReportedStatus(st: ServiceState, taskId: string, c: Counters)
    requires GetTaskStatus(st, taskId).Ok?
    ensures var r := GetTaskStatus(ApplyProgress(st, taskId, c), taskId);
      r.Ok? && r.value.status == GetTaskStatus(st, taskId).value.status
  {
  }

  /** After a synced cancel of a running task, the worker's counter changes leave it reported as
      cancelled. (The throttled row save is another matter: see `CancelLostToCheckpoint`.) */
  lemma CancelSurvivesProgress(st: ServiceState, taskId: string, now: Time, c: Counters)
    requires Valid(st) && CancelTaskSynced(st, taskId, now).Ok?
    ensures var st' := ApplyProgress(CancelTaskSynced(st, taskId, now).value, taskId, c);
      GetTaskStatus(st', taskId).Ok? && GetTaskStatus(st', taskId).value.status == StatusCancelled
  {
    CancelIsReported(st, taskId, now);
    ProgressKeepsReportedStatus(CancelTaskSynced(st, taskId, now).value, taskId, c);
  }

  /** The writes of a transferred file on a throttled step of a running task. */
  lemma ThrottledStepWrites(f: WorkItem, s: FileStep, maxRetries: int, i: nat, c: Counters, now: Time)
    requires s.lookup.Some? && s.lookup.value.status == StatusRunning && s.throttled && Transferred(s, maxRetries)
    ensures var c' := Counters(i + 1, c.failed, c.transferred + f.size);
      StepFile(f, s, false, maxRetries, i, c, now) ==
        Next(c', [Progress(c'), Stamp(now), SaveRow(Checkpoint(s.lookup.value, c'))])
  {
    StatusesDistinct();
  }

  /** Whatever the table holds for the task, the throttled writes leave the checkpointed row in
      its place. */
  lemma CheckpointWins(st: ServiceState, taskId: string, row: TaskRecord, c: Counters, now: Time)
    requires Valid(st) && row.taskId == taskId && GetTask(st, taskId).Some? && GetTask(st, taskId).value.id == row.id
    ensures var written := ApplyEffects(st, taskId, [Progress(c), Stamp(now), SaveRow(Checkpoint(row, c))], now);
      GetTask(written, taskId) == Some(Checkpoint(row, c).(updatedAt := now))
  {
    var es := [Progress(c), Stamp(now), SaveRow(Checkpoint(row, c))];
    var st2 := ApplyEffect(st, taskId, Progress(c), now);
    var st3 := ApplyEffect(st2, taskId, Stamp(now), now);
    var st4 := ApplyEffect(st3, taskId, SaveRow(Checkpoint(row, c)), now);
    assert es[1..] == [Stamp(now), SaveRow(Checkpoint(row, c))] && es[1..][1..] == [SaveRow(Checkpoint(row, c))];
    assert es[1..][1..][1..] == [];
    assert ApplyEffects(st3, taskId, es[1..][1..], now) == ApplyEffects(st4, taskId, [], now) == st4;
    assert ApplyEffects(st, taskId, es, now) == st4;
    assert st3.rows == st.rows;
    assert GetTask(st3, taskId) == GetTask(st, taskId);
    SaveFoundRow(st3, Checkpoint(row, c), now);
  }

  /** A cancel that lands while a file uploads is lost: the worker re-read the row as running
      before the file, and its throttled save after the file writes that row back, so the task
      reads as running again (and the next iteration carries on). */
  lemma CancelLostToCheckpoint(st: ServiceState, taskId: string, now: Time, f: WorkItem, s: FileStep,
                               maxRetries: int, i: nat, c: Counters)
    requires Valid(st) && GetTask(st, taskId).Some? && GetTask(st, taskId).value.status == StatusRunning
    requires s.lookup == GetTask(st, taskId) && s.throttled && Transferred(s, maxRetries)
    ensures CancelTask(st, taskId, now).Ok?
    ensures var cancelled := CancelTask(st, taskId, now).value;
      var written := ApplyEffects(cancelled, taskId, StepFile(f, s, false, maxRetries, i, c, now).effects, now);
      GetTask(cancelled, taskId).value.status == StatusCancelled &&
      GetTask(written, taskId).Some? && GetTask(written, taskId).value.status == StatusRunning
  {
    var row := GetTask(st, taskId).value;
    CancelMarksRow(st, taskId, now, now);
    var st1 := CancelTask(st, taskId, now).value;
    var c' := Counters(i + 1, c.failed, c.transferred + f.size);
    ThrottledStepWrites(f, s, maxRetries, i, c, now);
    assert GetTask(st1, taskId).value.id == row.id by {
      var k :| 0 <= k < |st.rows| && st.rows[k] == row;
      var j :| 0 <= j < |st1.rows| && st1.rows[j] == GetTask(st1, taskId).value;
      assert st1.rows[k].id == row.id;
      assert st1.rows[j].taskId == taskId == st1.rows[k].taskId;
    }
    CheckpointWins(st1, taskId, row, c', now);
  }

  /** The save the checkpoint evidently intends: only the counter columns of the task's row are
      written (an update of those columns where the task id matches, rather than `Save` of a
      stale copy), so a status set in the meantime is kept. */
  function SaveCounters(st: ServiceState, taskId: string, c: Counters, now: Time): (r: ServiceState)
    ensures r.cache == st.cache && |r.rows| == |st.rows| && r.nextId == st.nextId
    ensures forall j :: 0 <= j < |st.rows| ==> r.rows[j].status == st.rows[j].status && SameKey(r.rows[j], st.rows[j])
    ensures forall j :: 0 <= j < |st.rows| && st.rows[j].taskId == taskId ==>
              r.rows[j].processedFiles == c.processed && r.rows[j].failedFiles == c.failed &&
              r.rows[j].transferredSize == c.transferred
    ensures forall j :: 0 <= j < |st.rows| && st.rows[j].taskId != taskId ==> r.rows[j] == st.rows[j]
  {
    st.(rows := seq(|st.rows|, j requires 0 <= j < |st.rows| =>
                      if st.rows[j].taskId == taskId then Checkpoint(st.rows[j], c).(updatedAt := now) else st.rows[j]))
  }

  /** With the corrected save, a cancel that lands while a file uploads stays in the row, which
      still takes the new counters. */
  lemma CancelSurvivesCounterSave(st: ServiceState, taskId: string, now: Time, c: Counters)
    requires Valid(st) && CancelTask(st, taskId, now).Ok?
    ensures var written := SaveCounters(CancelTask(st, taskId, now).value, taskId, c, now);
      GetTask(written, taskId).Some? && GetTask(written, taskId).value.status == StatusCancelled &&
      GetTask(written, taskId).value.processedFiles == c.processed
  {
    CancelMarksRow(st, taskId, now, now);
    var st1 := CancelTask(st, taskId, now).value;
    var j :| 0 <= j < |st1.rows| && st1.rows[j] == GetTask(st1, taskId).value;
    var st2 := SaveCounters(st1, taskId, c, now);
    assert Valid(st2) by {
      assert forall a :: 0 <= a < |st1.rows| ==> SameKey(st2.rows[a], st1.rows[a]);
    }
    GetTaskAt(st2, j);
  }

  /** The writes of a throttled step that resumes a paused task and transfers its file: the
      polled row saved as running, then the counter change, the status stored again, and the row
      re-read before the pause saved with the new counters. */
  lemma ResumedStepWrites(f: WorkItem, s: FileStep, maxRetries: int, i: nat, c: Counters, now: Time)
    requires s.lookup.Some? && s.lookup.value.status == StatusPaused
    requires |s.polls| == 1 && s.polls[0].Some? && s.polls[0].value.status == StatusPending
    requires s.throttled && Transferred(s, maxRetries)
    ensures var c' := Counters(i + 1, c.failed, c.transferred + f.size);
      StepFile(f, s, false, maxRetries, i, c, now) ==
        Next(c', [SaveRow(s.polls[0].value.(status := StatusRunning)), Progress(c'), Stamp(now),
                  SaveRow(Checkpoint(s.lookup.value, c'))])
  {
    StatusesDistinct();
    assert PauseGate(PollStatuses(s.polls)) == Resumed(0);
  }

  /** A resume is undone by the file it lets through. The step re-read the row as paused before
      waiting (line 150), and the resume saves only the row the poll read, set to running (lines
      165-171). That file's throttled save then writes the paused row back. The throttle always
      fires on that step, because the wait slept at least five seconds since the last write. So
      the task reads as paused again, and the next iteration waits once more. */
  lemma ResumeUndoneByCheckpoint(st: ServiceState, taskId: string, now: Time, f: WorkItem, s: FileStep,
                                 maxRetries: int, i: nat, c: Counters)
    requires Valid(st) && GetTask(st, taskId).Some? && GetTask(st, taskId).value.status == StatusPending
    requires s.polls == [GetTask(st, taskId)] && s.lookup.Some? && s.lookup.value.status == StatusPaused
    requires SameKey(s.lookup.value, GetTask(st, taskId).value)
    requires s.throttled && Transferred(s, maxRetries)
    ensures var written := ApplyEffects(st, taskId, StepFile(f, s, false, maxRetries, i, c, now).effects, now);
      GetTask(written, taskId).Some? && GetTask(written, taskId).value.status == StatusPaused
  {
    var pending := GetTask(st, taskId).value;
    var paused := s.lookup.value;
    var c' := Counters(i + 1, c.failed, c.transferred + f.size);
    assert pending.taskId == taskId by {
      var k :| 0 <= k < |st.rows| && st.rows[k] == pending;
    }
    ResumedStepWrites(f, s, maxRetries, i, c, now);
    var es := [SaveRow(pending.(status := StatusRunning)), Progress(c'), Stamp(now), SaveRow(Checkpoint(paused, c'))];
    var st1 := ApplyEffect(st, taskId, es[0], now);
    SaveFoundRow(st, pending.(status := StatusRunning), now);
    assert es[1..] == [Progress(c'), Stamp(now), SaveRow(Checkpoint(paused, c'))];
    assert ApplyEffects(st, taskId, es, now) == ApplyEffects(st1, taskId, es[1..], now);
    CheckpointWins(st1, taskId, paused, c', now);
  }

  /** With the corrected save, the resume stays: the row saved as running keeps its status when
      the counters are written. */
  lemma ResumeSurvivesCounterSave(st: ServiceState, taskId: string, now: Time, c: Counters)
    requires Valid(st) && GetTask(st, taskId).Some? && GetTask(st, taskId).value.status == StatusPending
    ensures var resumed := SaveTask(st, GetTask(st, taskId).value.(status := StatusRunning), now);
      var written := SaveCounters(resumed, taskId, c, now);
      GetTask(written, taskId).Some? && GetTask(written, taskId).value.status == StatusRunning &&
      GetTask(written, taskId).value.processedFiles == c.processed
  {
    var pending := GetTask(st, taskId).value;
    assert pending.taskId == taskId by {
      var k :| 0 <= k < |st.rows| && st.rows[k] == pending;
    }
    SaveFoundRow(st, pending.(status := StatusRunning), now);
    var st1 := SaveTask(st, pending.(status := StatusRunning), now);
    var j :| 0 <= j < |st1.rows| && st1.rows[j] == GetTask(st1, taskId).value;
    var st2 := SaveCounters(st1, taskId, c, now);
    assert Valid(st2) by {
      assert forall a :: 0 <= a < |st1.rows| ==> SameKey(st2.rows[a], st1.rows[a]);
    }
    GetTaskAt(st2, j);
  }

  // ----- failTask and the whole run -----

  /** The live status a run caches when its loop starts: running, with the totals and zero
      counters; the start time is the run's clock. */
  function InitialStatus(taskId: string, totalFiles: nat, totalSize: nat, now: Time): (s: TaskStatus)
    ensures s.taskId == taskId && s.status == StatusRunning && s.totalFiles == totalFiles && s.totalSize == totalSize
    ensures s.processedFiles == 0 && s.failedFiles == 0 && s.transferredSize == 0
  {
    TaskStatus(taskId, StatusRunning, "", 0, 0, 0.0, 0, 0, totalFiles, 0, totalSize, 0.0, 0, 0, 0, now, now,
               [], "", "", "")
  }

  /** The status `failTask` caches: only the id, the failed status and the update time are set;
      every counter and total is zero and the start time is the zero time (0). */
  function FailedStatus(taskId: string, now: Time): (s: TaskStatus)
    ensures s.taskId == taskId && s.status == StatusFailed && s.updatedAt == now
    ensures s.processedFiles == 0 && s.totalFiles == 0 && s.transferredSize == 0 && s.totalSize == 0 && s.failedFiles == 0
  {
    TaskStatus(taskId, StatusFailed, "", 0, 0, 0.0, 0, 0, 0, 0, 0, 0.0, 0, 0, 0, 0, now, [], "", "", "")
  }

  /** `failTask`: the row it is given is saved as failed with a completion time, and a fresh
      failed status is cached. */
  function FailTask(t: TaskRecord, now: Time): (effects: seq<Effect>)
    ensures |effects| == 2 && effects[0].SaveRow? && effects[1] == PutStatus(FailedStatus(t.taskId, now))
    ensures effects[0].row.status == StatusFailed && effects[0].row.completedAt == Some(now)
    ensures SameKey(effects[0].row, t) && effects[0].row.processedFiles == t.processedFiles
  {
    [SaveRow(t.(status := StatusFailed, completedAt := Some(now))), PutStatus(FailedStatus(t.taskId, now))]
  }

  /** What the run's environment supplies: the login answer (None when the request fails), the
      tree found at each readable folder path, and the configured retry count. */
  datatype WorkerEnv = WorkerEnv(login: Option<ZimaosClient.Response>, trees: map<string, FsNode>, maxRetries: int)

  /** How a run ends. `Crashed`: the login panics on a short token inside the worker, where
      nothing recovers it. `Halted`: cancelled, or given up while paused. `Waiting`: still paused. */
  datatype RunEnd = Missing | SkippedCancelled | Failed(message: string) | Crashed | Completed | Halted | Waiting

  datatype Run = Run(effects: seq<Effect>, end: RunEnd)

  /** The writes end with `failTask`: a failed row, then a fresh failed status for that row's
      task. */
  predicate EndsFailed(effects: seq<Effect>, now: Time) {
    |effects| >= 2 &&
    var last := effects[|effects| - 1];
    var saved := effects[|effects| - 2];
    last.PutStatus? && saved.SaveRow? && saved.row.status == StatusFailed &&
    last.status == FailedStatus(saved.row.taskId, now)
  }

  /** The writes end with the completed row, whose counters stay within its totals, and then a
      completed status carrying the same counters. */
  predicate EndsCompleted(effects: seq<Effect>) {
    |effects| >= 2 &&
    var last := effects[|effects| - 1];
    var saved := effects[|effects| - 2];
    last.PutStatus? && saved.SaveRow? && last.status.status == StatusCompleted && saved.row.status == StatusCompleted &&
    saved.row.processedFiles <= saved.row.totalFiles && saved.row.transferredSize <= saved.row.totalSize &&
    saved.row.failedFiles <= saved.row.totalFiles &&
    last.status.processedFiles == saved.row.processedFiles && last.status.transferredSize == saved.row.transferredSize &&
    last.status.failedFiles == saved.row.failedFiles
  }

  lemma PrefixKeepsEnds(a: seq<Effect>, b: seq<Effect>, t: TaskRecord, now: Time)
    ensures OwnRows(a, t) && OwnRows(b, t) ==> OwnRows(a + b, t)
    ensures EndsFailed(b, now) ==> EndsFailed(a + b, now)
    ensures EndsCompleted(b) ==> EndsCompleted(a + b)
  {
    var ab := a + b;
    assert forall k :: |a| <= k < |ab| ==> ab[k] == b[k - |a|];
    if |b| >= 2 {
      assert ab[|ab| - 1] == b[|b| - 1] && ab[|ab| - 2] == b[|b| - 2];
    }
  }

  /** The login a run attempts, from a fresh client. */
  function RunLogin(answer: Option<ZimaosClient.Response>): ZimaosClient.LoginOutcome {
    match answer
    case None => ZimaosClient.LoginFailed("login request failed")
    case Some(resp) => ZimaosClient.Login("", resp)
  }

  /** The row written when the loop completes: completed, with the loop's counters, progress 100
      and a completion time. */
  function CompletedRow(t: TaskRecord, c: Counters, now: Time): (r: TaskRecord)
    ensures r.id == t.id && r.taskId == t.taskId && r.status == StatusCompleted && r.completedAt == Some(now)
    ensures r.totalFiles == t.totalFiles && r.totalSize == t.totalSize
    ensures r.processedFiles == c.processed && r.failedFiles == c.failed && r.transferredSize == c.transferred
  {
    t.(status := StatusCompleted, processedFiles := c.processed, transferredSize := c.transferred,
       progress := 100.0, failedFiles := c.failed, completedAt := Some(now))
  }

  /** The writes after the loop: completion of the row counted at the start (also after a failed
      lookup), nothing more after a cancel or while paused, and after an abort `failTask` on the
      row re-read before the failing file, which carries the counters of the last checkpoint
      rather than the live ones. */
  function FinishLoop(counted: TaskRecord, live: TaskStatus, end: LoopEnd, now: Time): (r: Run)
    requires end.c.processed <= counted.totalFiles && end.c.failed <= counted.totalFiles
    requires end.c.transferred <= counted.totalSize
    ensures (end.Aborted? ==> SameKey(end.row, counted)) ==> OwnRows(r.effects, counted)
    ensures r.end.Completed? <==> end.Finished? || end.LookupFailed?
    ensures r.end.Completed? ==> EndsCompleted(r.effects) && r.effects[0].SaveRow? && r.effects[0].row.id == counted.id
    ensures r.end.Failed? <==> end.Aborted?
    ensures r.end.Failed? ==> EndsFailed(r.effects, now) && r.effects[0].SaveRow? && r.effects[0].row.taskId == end.row.taskId &&
                              r.effects[0].row.processedFiles == end.row.processedFiles
    ensures r.end.Halted? <==> end.Stopped?
    ensures r.end.Waiting? <==> end.Paused?
    ensures !r.end.Completed? && !r.end.Failed? ==> r.effects == []
  {
    var c := end.c;
    var done := [SaveRow(CompletedRow(counted, c, now)),
                 PutStatus(live.(status := StatusCompleted, processedFiles := c.processed, failedFiles := c.failed,
                                 transferredSize := c.transferred, progress := 100.0, updatedAt := now))];
    match end
    case Finished(_) => Run(done, Completed)
    case LookupFailed(_) => Run(done, Completed)
    case Stopped(_) => Run([], Halted)
    case Paused(_) => Run([], Waiting)
    case Aborted(_, m, row) => Run(FailTask(row, now), Failed(m))
  }

  /** Before the loop's writes, the only row a run saves is the task's own. */
  lemma SetUpOwnRows(counted: TaskRecord, live: TaskStatus, loop: seq<Effect>)
    requires OwnRows(loop, counted)
    ensures OwnRows([SaveRow(counted), PutStatus(live)] + loop, counted)
  {
    var e := [SaveRow(counted), PutStatus(live)] + loop;
    assert forall k :: 2 <= k < |e| ==> e[k] == loop[k - 2];
  }

  /** A run's writes up to the end of the loop save only the task's own row when the loop reads
      only that row; so does an abort. */
  lemma LoopOwnRows(items: seq<WorkItem>, steps: nat -> FileStep, skipErrors: bool, maxRetries: int, now: Time,
                    counted: TaskRecord, live: TaskStatus)
    ensures Bounded(Counters(0, 0, 0), items, 0)
    ensures var loop := RunFiles(items, steps, skipErrors, maxRetries, 0, Counters(0, 0, 0), now);
      (forall k :: OwnLookups(steps(k), counted)) ==>
        OwnRows([SaveRow(counted), PutStatus(live)] + loop.effects, counted) &&
        (loop.end.Aborted? ==> SameKey(loop.end.row, counted))
  {
    assert items[..0] == [];
    if forall k :: OwnLookups(steps(k), counted) {
      RunFilesOwnRows(items, steps, skipErrors, maxRetries, 0, Counters(0, 0, 0), now, counted);
      SetUpOwnRows(counted, live, RunFiles(items, steps, skipErrors, maxRetries, 0, Counters(0, 0, 0), now).effects);
    }
  }

  /** Everything after a successful login: scan, record the totals, cache the live status, run
      the loop and finish. When every row the loop reads is the task's own (as `GetTask` by task
      id guarantees), only that row is ever saved. */
  function Migrate(running: TaskRecord, folders: seq<string>, options: MigrationOptions, env: WorkerEnv,
                   steps: nat -> FileStep, now: Time): (r: Run)
    ensures (forall k :: OwnLookups(steps(k), running)) ==> OwnRows(r.effects, running)
    ensures r.end.Completed? ==> EndsCompleted(r.effects)
    ensures r.end.Failed? ==> EndsFailed(r.effects, now)
    ensures r.end.Completed? || r.end.Failed? || r.end.Halted? || r.end.Waiting?
    ensures |r.effects| >= 2 && r.effects[0].SaveRow? && r.effects[1].PutStatus? &&
            r.effects[0].row.totalFiles == r.effects[1].status.totalFiles
  {
    var scanned := ScanFolders(folders, env.trees, running.basePath, options.includeRecycle);
    var items := scanned.0;
    var counted := running.(totalFiles := |items|, totalSize := scanned.1);
    var live := InitialStatus(running.taskId, |items|, scanned.1, now);
    assert items[..0] == [];
    var loop := RunFiles(items, steps, options.skipErrors, env.maxRetries, 0, Counters(0, 0, 0), now);
    assert items[..|items|] == items;
    var setUp := [SaveRow(counted), PutStatus(live)] + loop.effects;
    var finish := FinishLoop(counted, live, loop.end, now);
    assert (forall k :: OwnLookups(steps(k), running)) ==> forall k :: OwnLookups(steps(k), counted);
    LoopOwnRows(items, steps, options.skipErrors, env.maxRetries, now, counted, live);
    PrefixKeepsEnds(setUp, finish.effects, counted, now);
    Run(setUp + finish.effects, finish.end)
  }

  /** A failed status lookup before the first file is not an error: the run ends completed, and
      reports nothing processed and nothing transferred, whatever files were found. */
  lemma LookupFailureCompletesEmpty(running: TaskRecord, folders: seq<string>, options: MigrationOptions,
                                    env: WorkerEnv, steps: nat -> FileStep, now: Time)
    requires steps(0).lookup.None?
    ensures var r := Migrate(running, folders, options, env, steps, now);
      r.end.Completed? && |r.effects| >= 2 && r.effects[|r.effects| - 1].PutStatus? &&
      r.effects[|r.effects| - 1].status.processedFiles == 0 &&
      r.effects[|r.effects| - 1].status.transferredSize == 0
  {
    var scanned := ScanFolders(folders, env.trees, running.basePath, options.includeRecycle);
    var items := scanned.0;
    assert items[..0] == [];
    var loop := RunFiles(items, steps, options.skipErrors, env.maxRetries, 0, Counters(0, 0, 0), now);
    assert loop.end.c == Counters(0, 0, 0);
    assert loop.end.Finished? || loop.end.LookupFailed?;
  }

  /** Once `failTask` has cached its status, the task is reported failed with every counter at
      zero, whatever progress its row records. */
  lemma FailureReportsZeroCounters(st: ServiceState, t: TaskRecord, now: Time)
    requires GetTask(st, t.taskId).Some?
    ensures var st' := UpdateTaskStatus(st, t.taskId, FailTask(t, now)[1].status);
      var r := GetTaskStatus(st', t.taskId);
      r.Ok? && r.value.status == StatusFailed && r.value.processedFiles == 0 && r.value.failedFiles == 0 &&
      r.value.transferredSize == 0 && r.value.totalFiles == 0
  {
  }

  /** `processTask` on the row read at pick-up (None when it cannot be read). */
  function ProcessTask(row: Option<TaskRecord>, env: WorkerEnv, steps: nat -> FileStep, now: Time): (r: Run)
    ensures row.None? ==> r == Run([], Missing)
    ensures row.Some? && row.value.status == StatusCancelled ==> r == Run([], SkippedCancelled)
    ensures row.Some? && row.value.status != StatusCancelled ==>
      |r.effects| >= 1 && r.effects[0] == SaveRow(row.value.(status := StatusRunning, startedAt := Some(now)))
    ensures row.Some? && (forall k :: OwnLookups(steps(k), row.value)) ==> OwnRows(r.effects, row.value)
    ensures r.end.Failed? ==> row.Some? && EndsFailed(r.effects, now)
    ensures r.end.Completed? ==> EndsCompleted(r.effects)
  {
    match row
    case None => Run([], Missing)
    case Some(t) =>
      if t.status == StatusCancelled then Run([], SkippedCancelled)
      else
        var running := t.(status := StatusRunning, startedAt := Some(now));
        var started := [SaveRow(running)];
        var rest :=
          match RunFolders(t.sourceFolders)
          case None => Run(FailTask(running, now), Failed("failed to parse source folders"))
          case Some(folders) =>
            match RunLogin(env.login)
            case LoginPanicked => Run([], Crashed)
            case LoginFailed(m) => Run(FailTask(running, now), Failed("failed to login to ZimaOS: " + m))
            case LoggedIn(_) => Migrate(running, folders, RunOptions(t.options), env, steps, now);
        assert (forall k :: OwnLookups(steps(k), t)) ==> forall k :: OwnLookups(steps(k), running);
        PrefixKeepsEnds(started, rest.effects, running, now);
        Run(started + rest.effects, rest.end)
  }
}
