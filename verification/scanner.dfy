/** The storage scanner (service/scanner_service.go): the time-limited scan cache, the volume and
    shared-folder listing of the host directory, and the folder-details walk. The file system is
    an immutable tree (`FileTree.FsNode`); the clock and the cache lifetime are parameters. */
module Scanner {
  import opened Wrappers
  import opened Text
  import opened Types
  import opened FileTree

  // ----- Scan: the result cache -----

  /** The cached result and the time it was stored. */
  datatype ScanCache = ScanCache(result: ScanResult, storedAt: Time)

  /** Whether a cached result may be served at `now`: one is present and younger than `ttl`. */
  predicate Fresh(cache: Option<ScanCache>, now: Time, ttl: int) {
    cache.Some? && now - cache.value.storedAt < ttl
  }

  /** `Scan`: serve a fresh cache; otherwise `perform` is the outcome of a new scan, which replaces
      the cache and its time when it succeeds and leaves the cache alone when it fails. */
  function Scan(cache: Option<ScanCache>, now: Time, ttl: int, perform: Result<ScanResult, string>)
    : (r: (Result<ScanResult, string>, Option<ScanCache>))
    ensures Fresh(cache, now, ttl) ==> r.0 == Ok(cache.value.result) && r.1 == cache
    ensures !Fresh(cache, now, ttl) && perform.Err? ==> r.0 == perform && r.1 == cache
    ensures !Fresh(cache, now, ttl) && perform.Ok? ==> r.0 == perform && r.1 == Some(ScanCache(perform.value, now))
  {
    if Fresh(cache, now, ttl) then (Ok(cache.value.result), cache)
    else if perform.Err? then (perform, cache)
    else (perform, Some(ScanCache(perform.value, now)))
  }

  /** After a successful scan at `t`, every scan strictly less than `ttl` later returns that same
      result whatever a new scan would have produced, and leaves the cache as it is. */
  lemma ScanServedFromCache(cache: Option<ScanCache>, t: Time, ttl: int, scanned: ScanResult,
                            later: Time, other: Result<ScanResult, string>)
    requires !Fresh(cache, t, ttl)
    requires t <= later < t + ttl
    ensures var c := Scan(cache, t, ttl, Ok(scanned)).1;
      Scan(c, later, ttl, other) == (Ok(scanned), c)
  {
  }

  /** Once `ttl` has elapsed the cache is bypassed: the outcome is the new scan's. */
  lemma ExpiredCacheRescans(c: ScanCache, now: Time, ttl: int, perform: Result<ScanResult, string>)
    requires now - c.storedAt >= ttl
    ensures Scan(Some(c), now, ttl, perform).0 == perform
  {
  }

  /** A non-positive lifetime, which a wrapped-around configured duration can produce, never
      serves a cache stored at or before `now`. */
  lemma NonPositiveTtlAlwaysRescans(cache: Option<ScanCache>, now: Time, ttl: int, perform: Result<ScanResult, string>)
    requires ttl <= 0 && cache.Some? && cache.value.storedAt <= now
    ensures Scan(cache, now, ttl, perform).0 == perform
  {
  }

  // ----- performScan and scanVolume -----

  /** A host entry scanned as a volume: a directory whose name starts with `volume`. */
  predicate IsVolumeEntry(n: FsNode) {
    n.Dir? && StartsWith(n.name, "volume")
  }

  /** A volume entry contributes to the result only when its listing succeeds. */
  predicate ListedVolume(n: FsNode) {
    IsVolumeEntry(n) && n.readable
  }

  /** A volume entry listed as a shared folder: a directory not starting with `@` whose metadata
      can be read. */
  predicate IsSharedFolder(n: FsNode) {
    n.Dir? && !StartsWith(n.name, "@") && n.modified.Some?
  }

  /** The folder record for a shared folder of the volume at `volumePath`: size and file count
      are not computed here and are 0. */
  function FolderOf(volumePath: string, n: FsNode): FolderInfo
    requires IsSharedFolder(n)
  {
    FolderInfo(JoinPath(volumePath, n.name), n.name, 0, 0, n.modified.value, None)
  }

  /** `scanVolume` over the entries of a listed volume, in listing order: exactly the shared
      folders, each with a zero size and count and a path under the volume. */
  function ScanVolume(volumePath: string, entries: seq<FsNode>): (r: seq<FolderInfo>)
    ensures forall f :: f in r <==> exists i :: 0 <= i < |entries| && IsSharedFolder(entries[i]) &&
                                              f == FolderOf(volumePath, entries[i])
    ensures forall f :: f in r ==> f.size == 0 && f.fileCount == 0 && !StartsWith(f.name, "@") &&
                                   f.path == JoinPath(volumePath, f.name)
    ensures |r| <= |entries|
  {
    if |entries| == 0 then []
    else
      var rest := ScanVolume(volumePath, entries[1..]);
      var r := if IsSharedFolder(entries[0]) then [FolderOf(volumePath, entries[0])] + rest else rest;
      assert forall i :: 1 <= i < |entries| ==> entries[i] == entries[1..][i - 1];
      assert forall f :: f in rest <==> exists i :: 1 <= i < |entries| && IsSharedFolder(entries[i]) &&
                                                   f == FolderOf(volumePath, entries[i]) by {
        forall f | f in rest
          ensures exists i :: 1 <= i < |entries| && IsSharedFolder(entries[i]) && f == FolderOf(volumePath, entries[i])
        {
          var j :| 0 <= j < |entries[1..]| && IsSharedFolder(entries[1..][j]) && f == FolderOf(volumePath, entries[1..][j]);
          assert entries[j + 1] == entries[1..][j];
        }
      }
      r
  }

  /** The volume record for a listed volume entry of the host directory. */
  function VolumeOf(hostPath: string, n: FsNode): VolumeInfo
    requires ListedVolume(n)
  {
    var path := JoinPath(hostPath, n.name);
    VolumeInfo(n.name, path, ScanVolume(path, n.children))
  }

  /** The volumes found in the host listing: exactly one per listed volume entry. A volume whose
      listing fails is dropped rather than failing the scan. The scanner collects volumes from
      parallel workers, so only membership is specified, not order. */
  function Volumes(hostPath: string, entries: seq<FsNode>): (r: seq<VolumeInfo>)
    ensures forall i :: 0 <= i < |entries| && ListedVolume(entries[i]) ==> VolumeOf(hostPath, entries[i]) in r
    ensures forall v :: v in r ==> exists i :: 0 <= i < |entries| && ListedVolume(entries[i]) &&
                                              v == VolumeOf(hostPath, entries[i])
  {
    if |entries| == 0 then []
    else
      var rest := Volumes(hostPath, entries[1..]);
      var r := if ListedVolume(entries[0]) then [VolumeOf(hostPath, entries[0])] + rest else rest;
      forall i | 1 <= i < |entries| && ListedVolume(entries[i])
        ensures VolumeOf(hostPath, entries[i]) in rest
      {
        assert entries[1..][i - 1] == entries[i];
      }
      forall v | v in rest
        ensures exists i :: 1 <= i < |entries| && ListedVolume(entries[i]) && v == VolumeOf(hostPath, entries[i])
      {
        var j :| 0 <= j < |entries[1..]| && ListedVolume(entries[1..][j]) && v == VolumeOf(hostPath, entries[1..][j]);
        assert entries[j + 1] == entries[1..][j];
      }
      r
  }

  /** Every reported volume is a `volume…` directory of the host, at its joined path. */
  lemma VolumesAreVolumeDirs(hostPath: string, entries: seq<FsNode>, v: VolumeInfo)
    requires v in Volumes(hostPath, entries)
    ensures StartsWith(v.name, "volume") && v.path == JoinPath(hostPath, v.name)
  {
  }

  /** `performScan`: an unreadable host directory (`hostListing` None) is an error; otherwise
      the volumes and the scan time. The volume slice starts nil and is only appended to, so a
      host where no volume was listed reports no list at all rather than an empty one. */
  function PerformScan(hostPath: string, hostListing: Option<seq<FsNode>>, now: Time): (r: Result<ScanResult, string>)
    ensures r.Err? <==> hostListing.None?
    ensures r.Ok? ==> r.value.scannedAt == now
    ensures r.Ok? ==> (r.value.volumes.None? <==>
                       forall i :: 0 <= i < |hostListing.value| ==> !ListedVolume(hostListing.value[i]))
    ensures r.Ok? && r.value.volumes.Some? ==> r.value.volumes.value == Volumes(hostPath, hostListing.value)
  {
    match hostListing
    case None => Err("open " + hostPath + ": no such file or directory")
    case Some(entries) =>
      var found := Volumes(hostPath, entries);
      assert |found| > 0 ==> exists i :: 0 <= i < |entries| && ListedVolume(entries[i]) by {
        if |found| > 0 {
          assert found[0] in found;
        }
      }
      Ok(ScanResult(if |found| == 0 then None else Some(found), now))
  }

  /** A shared folder reported for a volume is named by the base of its own path. */
  lemma FolderNamedByPath(volumePath: string, entries: seq<FsNode>, f: FolderInfo)
    requires f in ScanVolume(volumePath, entries)
    requires f.name != "" && '/' !in f.name
    ensures PathBase(f.path) == f.name
  {
    BaseOfJoin(volumePath, f.name);
  }

  // ----- GetFolderDetails -----

  /** The error `os.ErrInvalid` returns for a path that is not a directory. */
  const InvalidArgument: string := "invalid argument"

  /** `GetFolderDetails`: `target` is what stat finds at `folderPath` (None when it fails). A
      file is an invalid argument; a directory gets the walk's file count and total size, named by
      the base of the path. */
  function GetFolderDetails(folderPath: string, target: Option<FsNode>, includeRecycle: bool)
    : (r: Result<FolderInfo, string>)
    ensures r.Err? <==> target.None? || target.value.File? || target.value.modified.None?
    ensures target.Some? && target.value.File? ==> r == Err(InvalidArgument)
    ensures r.Ok? ==> r.value.path == folderPath && r.value.name == PathBase(folderPath) &&
                      r.value.fileCount == |WalkRoot(target, includeRecycle)| &&
                      r.value.size == SumSizes(WalkRoot(target, includeRecycle))
  {
    match target
    case None => Err("stat " + folderPath + ": no such file or directory")
    case Some(n) =>
      if n.File? then Err(InvalidArgument)
      else if n.modified.None? then Err("stat " + folderPath + ": permission denied")
      else
        var d := Details(n, includeRecycle);
        DetailsAgree(n, [], includeRecycle);
        Ok(FolderInfo(folderPath, PathBase(folderPath), d.1, d.0, n.modified.value, None))
  }

  /** No file below a pruned directory is counted: adding or removing anything under an `@`
      directory, or under `#recycle` when the recycle bin is excluded, leaves the details alone. */
  lemma {:induction false} PrunedContentsIgnored(n: FsNode, children': seq<FsNode>, includeRecycle: bool)
    requires n.Dir? && SkipsDir(n.name, includeRecycle)
    ensures Details(n.(children := children'), includeRecycle) == (0, 0)
    ensures Details(n, includeRecycle) == (0, 0)
  {
  }
}
