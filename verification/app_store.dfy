/** The wizard's client store (webui/src/store/useAppStore.ts) as a reducer over an immutable
    state: step, selected folders, current task, the scan-result cache with its five-minute
    validity window, the destination configuration, discovered devices and migration options,
    plus the projection that is written to session storage. The clock is a parameter. */
module AppStore {
  import opened Wrappers
  import opened Seqs
  import opened Types

  /** Five minutes, in milliseconds. */
  const ScanCacheTtl: int := 5 * 60 * 1000

  datatype ZimaosConfig = ZimaosConfig(host: string, username: string, password: string, basePath: string)

  datatype AppState = AppState(
    currentStep: WorkflowStep,
    selectedFolders: seq<string>,
    currentTaskId: string,
    scanResult: Option<ScanResult>,
    scanResultTimestamp: Option<int>,
    zimaosConfig: ZimaosConfig,
    discoveredDevices: seq<ZimaOSDevice>,
    selectedDevice: Option<ZimaOSDevice>,
    migrationOptions: MigrationOptions)

  /** A partial configuration: absent fields are not part of the update. */
  datatype ConfigPatch = ConfigPatch(host: Option<string>, username: Option<string>,
                                     password: Option<string>, basePath: Option<string>)

  /** A partial set of migration options. */
  datatype OptionsPatch = OptionsPatch(overwriteExisting: Option<bool>, skipErrors: Option<bool>,
                                       preserveTimes: Option<bool>, includeRecycle: Option<bool>)

  const DefaultOptions: MigrationOptions := MigrationOptions(false, true, true, false)

  const InitialState: AppState :=
    AppState(Scan, [], "", None, None, ZimaosConfig("", "", "", "/DATA"), [], None, DefaultOptions)

  /** Every action of the store. */
  datatype AppAction =
    | SetCurrentStep(step: WorkflowStep)
    | SetSelectedFolders(folders: seq<string>)
    | AddSelectedFolder(folder: string)
    | RemoveSelectedFolder(folder: string)
    | ClearSelectedFolders
    | SetCurrentTaskId(taskId: string)
    | SetScanResult(result: ScanResult)
    | ClearScanResult
    | SetZimaosConfig(config: ConfigPatch)
    | ClearZimaosPassword
    | SetDiscoveredDevices(devices: seq<ZimaOSDevice>)
    | SetSelectedDevice(device: Option<ZimaOSDevice>)
    | SetMigrationOptions(options: OptionsPatch)
    | Reset

  /** `isScanResultValid` at time `now`: a result and a truthy timestamp (so not 0) are both
      present, and fewer than five minutes have passed since the timestamp. */
  predicate IsScanResultValid(s: AppState, now: int) {
    s.scanResult.Some? && s.scanResultTimestamp.Some? && s.scanResultTimestamp.value != 0 &&
    now - s.scanResultTimestamp.value < ScanCacheTtl
  }

  /** The shallow merge `{ ...config, ...patch }`. */
  function MergeConfig(c: ZimaosConfig, p: ConfigPatch): (r: ZimaosConfig)
    ensures r.host == p.host.GetOr(c.host) && r.username == p.username.GetOr(c.username)
    ensures r.password == p.password.GetOr(c.password) && r.basePath == p.basePath.GetOr(c.basePath)
  {
    ZimaosConfig(
      if p.host.Some? then p.host.value else c.host,
      if p.username.Some? then p.username.value else c.username,
      if p.password.Some? then p.password.value else c.password,
      if p.basePath.Some? then p.basePath.value else c.basePath)
  }

  /** The shallow merge of migration options. */
  function MergeOptions(o: MigrationOptions, p: OptionsPatch): (r: MigrationOptions)
    ensures r.overwriteExisting == p.overwriteExisting.GetOr(o.overwriteExisting)
    ensures r.skipErrors == p.skipErrors.GetOr(o.skipErrors)
    ensures r.preserveTimes == p.preserveTimes.GetOr(o.preserveTimes)
    ensures r.includeRecycle == p.includeRecycle.GetOr(o.includeRecycle)
  {
    MigrationOptions(
      if p.overwriteExisting.Some? then p.overwriteExisting.value else o.overwriteExisting,
      if p.skipErrors.Some? then p.skipErrors.value else o.skipErrors,
      if p.preserveTimes.Some? then p.preserveTimes.value else o.preserveTimes,
      if p.includeRecycle.Some? then p.includeRecycle.value else o.includeRecycle)
  }

  /** Two successive patches act as one whose present fields are the later patch's, falling back
      to the earlier one's. */
  function ComposeConfig(first: ConfigPatch, second: ConfigPatch): ConfigPatch {
    ConfigPatch(
      if second.host.Some? then second.host else first.host,
      if second.username.Some? then second.username else first.username,
      if second.password.Some? then second.password else first.password,
      if second.basePath.Some? then second.basePath else first.basePath)
  }

  lemma MergeConfigCompose(c: ZimaosConfig, p: ConfigPatch, q: ConfigPatch)
    ensures MergeConfig(MergeConfig(c, p), q) == MergeConfig(c, ComposeConfig(p, q))
  {
  }

  /** `removeSelectedFolder`: every occurrence of `f` is dropped and the rest keep their order. */
  function Without(folders: seq<string>, f: string): (r: seq<string>)
    ensures f !in r
    ensures multiset(r) == multiset(folders)[f := 0]
    ensures |r| == |folders| - multiset(folders)[f]
  {
    if |folders| == 0 then []
    else
      assert folders == [folders[0]] + folders[1..];
      (if folders[0] == f then [] else [folders[0]]) + Without(folders[1..], f)
  }

  lemma WithoutCons(x: string, rest: seq<string>, f: string)
    ensures Without([x] + rest, f) == (if x == f then [] else [x]) + Without(rest, f)
  {
    assert ([x] + rest)[0] == x && ([x] + rest)[1..] == rest;
  }

  /** Removal distributes over concatenation, so the survivors keep their relative order. */
  lemma {:induction false} WithoutConcat(a: seq<string>, b: seq<string>, f: string)
    ensures Without(a + b, f) == Without(a, f) + Without(b, f)
  {
    if |a| > 0 {
      var x, rest := a[0], a[1..];
      var head := if x == f then [] else [x];
      assert a == [x] + rest;
      assert a + b == [x] + (rest + b);
      WithoutCons(x, rest + b, f);
      WithoutCons(x, rest, f);
      WithoutConcat(rest, b, f);
      assert head + (Without(rest, f) + Without(b, f)) == (head + Without(rest, f)) + Without(b, f);
    } else {
      assert a + b == b;
    }
  }

  /** The store after one action at time `now` (only `setScanResult` reads the clock). */
  function Dispatch(s: AppState, a: AppAction, now: int): (r: AppState)
    ensures a.AddSelectedFolder? ==> |r.selectedFolders| == |s.selectedFolders| + 1 &&
                                     r.selectedFolders[..|s.selectedFolders|] == s.selectedFolders &&
                                     r.selectedFolders[|s.selectedFolders|] == a.folder
    ensures a.RemoveSelectedFolder? ==> a.folder !in r.selectedFolders &&
                                        multiset(r.selectedFolders) == multiset(s.selectedFolders)[a.folder := 0]
    ensures a.SetScanResult? ==> r.scanResult == Some(a.result) && r.scanResultTimestamp == Some(now)
    ensures a.ClearScanResult? ==> r.scanResult.None? && r.scanResultTimestamp.None?
    ensures a.ClearZimaosPassword? ==> r.zimaosConfig.password == "" &&
                                       r.zimaosConfig.host == s.zimaosConfig.host &&
                                       r.zimaosConfig.username == s.zimaosConfig.username &&
                                       r.zimaosConfig.basePath == s.zimaosConfig.basePath
    ensures a.Reset? ==> r.currentStep == Scan && r.selectedFolders == [] && r.currentTaskId == "" &&
                         r.scanResult.None? && r.zimaosConfig.basePath == "/DATA" &&
                         r.migrationOptions == MigrationOptions(false, true, true, false)
    ensures !a.Reset? && !a.SetZimaosConfig? && !a.ClearZimaosPassword? ==> r.zimaosConfig == s.zimaosConfig
    ensures !a.Reset? && !a.SetCurrentStep? ==> r.currentStep == s.currentStep
  {
    match a
    case SetCurrentStep(step) => s.(currentStep := step)
    case SetSelectedFolders(folders) => s.(selectedFolders := folders)
    case AddSelectedFolder(folder) => s.(selectedFolders := s.selectedFolders + [folder])
    case RemoveSelectedFolder(folder) => s.(selectedFolders := Without(s.selectedFolders, folder))
    case ClearSelectedFolders => s.(selectedFolders := [])
    case SetCurrentTaskId(taskId) => s.(currentTaskId := taskId)
    case SetScanResult(result) => s.(scanResult := Some(result), scanResultTimestamp := Some(now))
    case ClearScanResult => s.(scanResult := None, scanResultTimestamp := None)
    case SetZimaosConfig(patch) => s.(zimaosConfig := MergeConfig(s.zimaosConfig, patch))
    case ClearZimaosPassword => s.(zimaosConfig := s.zimaosConfig.(password := ""))
    case SetDiscoveredDevices(devices) => s.(discoveredDevices := devices)
    case SetSelectedDevice(device) => s.(selectedDevice := device)
    case SetMigrationOptions(patch) => s.(migrationOptions := MergeOptions(s.migrationOptions, patch))
    case Reset => InitialState
  }

  /** A result stored at a non-zero time `t` is valid exactly while less than five minutes old. */
  lemma ScanCacheWindow(s: AppState, result: ScanResult, t: int, now: int)
    requires t != 0
    ensures IsScanResultValid(Dispatch(s, SetScanResult(result), t), now) <==> now - t < 300000
  {
  }

  /** A cleared cache is never valid, whatever the time. */
  lemma ClearedCacheInvalid(s: AppState, now: int)
    ensures !IsScanResultValid(Dispatch(s, ClearScanResult, 0), now)
  {
  }

  /** A result stamped at time 0 is never valid, because 0 is falsy. */
  lemma ZeroStampInvalid(s: AppState, result: ScanResult, now: int)
    ensures !IsScanResultValid(Dispatch(s, SetScanResult(result), 0), now)
  {
  }

  /** Blanking the password is the same as merging a patch that only sets the password to "". */
  lemma ClearPasswordIsPatch(s: AppState, now: int)
    ensures Dispatch(s, ClearZimaosPassword, now) ==
            Dispatch(s, SetZimaosConfig(ConfigPatch(None, None, Some(""), None)), now)
  {
  }

  /** Adding a folder and then removing it leaves no copy of it, even when it was selected before. */
  lemma AddThenRemove(folders: seq<string>, f: string)
    ensures Without(folders + [f], f) == Without(folders, f)
  {
    WithoutConcat(folders, [f], f);
    assert Without([f], f) == [];
  }

  /** Reset forgets everything: the state after it does not depend on the state before. */
  lemma ResetForgets(s: AppState, t: AppState, now: int, later: int)
    ensures Dispatch(s, Reset, now) == Dispatch(t, Reset, later) == InitialState
  {
  }

  /** `partialize`: what is written to session storage. The password is always blank. */
  function Partialize(s: AppState): (p: AppState)
    ensures p.zimaosConfig.password == ""
    ensures p.zimaosConfig.host == s.zimaosConfig.host && p.zimaosConfig.username == s.zimaosConfig.username
    ensures p.zimaosConfig.basePath == s.zimaosConfig.basePath
    ensures p.currentStep == s.currentStep && p.selectedFolders == s.selectedFolders
    ensures p.currentTaskId == s.currentTaskId && p.scanResult == s.scanResult
    ensures p.scanResultTimestamp == s.scanResultTimestamp && p.discoveredDevices == s.discoveredDevices
    ensures p.selectedDevice == s.selectedDevice && p.migrationOptions == s.migrationOptions
  {
    AppState(s.currentStep, s.selectedFolders, s.currentTaskId, s.scanResult, s.scanResultTimestamp,
             ZimaosConfig(s.zimaosConfig.host, s.zimaosConfig.username, "", s.zimaosConfig.basePath),
             s.discoveredDevices, s.selectedDevice, s.migrationOptions)
  }

  /** The persisted projection is exactly the store with its password blanked, so persisting a
      restored state changes nothing. */
  lemma PartializeIsClearPassword(s: AppState, now: int)
    ensures Partialize(s) == Dispatch(s, ClearZimaosPassword, now)
    ensures Partialize(Partialize(s)) == Partialize(s)
  {
  }

  /** The password never influences anything that is persisted: replaying an action on the
      restored state persists the same as replaying it on the live state. */
  lemma PasswordDoesNotLeak(s: AppState, a: AppAction, now: int)
    ensures Partialize(Dispatch(Partialize(s), a, now)) == Partialize(Dispatch(s, a, now))
  {
  }
}
