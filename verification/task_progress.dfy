/** The progress card (webui/src/components/migration/TaskProgress.tsx): which layout a status
    gets, which counters each layout shows, and when the current file is named. Byte counts are
    kept as numbers; their human-readable formatting is not modelled. */
module TaskProgress {
  import opened Wrappers
  import opened Types
  import MonitorPages

  /** One cell of the counter grid. */
  datatype Cell =
    | Count(title: string, done: nat, total: nat)
    | Data(title: string, done: nat, total: nat)
    | Speed(bytesPerSecond: int)
    | Eta(text: string)

  /** The verification panel: files verified so far out of all files. */
  datatype VerifyPanel = VerifyPanel(verified: nat, total: nat)

  datatype ProgressView = ProgressView(
    statusText: string,
    bar: real,
    panel: Option<VerifyPanel>,
    cells: seq<Cell>,
    currentFile: Option<(string, string)>)

  predicate IsVerifying(st: TaskStatus) {
    st.status == "verifying"
  }

  /** The card for a status. While verifying, a panel counts the verified files and the grid
      shows what was uploaded; otherwise the grid shows files, data, speed and ETA. The current
      file is named while a task runs or verifies. */
  function Render(st: TaskStatus): (v: ProgressView)
    ensures v.statusText == st.status && v.bar == st.progress
    ensures v.panel.Some? <==> IsVerifying(st)
  {
    var verifying := IsVerifying(st);
    var panel := if verifying then Some(VerifyPanel(st.verifyingFiles, st.totalFiles)) else None;
    var cells :=
      if verifying then
        [Count("Uploaded Files", st.processedFiles, st.totalFiles),
         Data("Uploaded Data", st.transferredSize, st.totalSize)]
      else
        [Count("Files", st.processedFiles, st.totalFiles),
         Data("Data", st.transferredSize, st.totalSize),
         Speed(st.speed),
         Eta(MonitorPages.EtaText(None))];
    var line :=
      if st.currentFile != "" && (st.status == "running" || verifying) then
        Some((if verifying then "Verifying file:" else "Current file:", st.currentFile))
      else None;
    ProgressView(st.status, st.progress, panel, cells, line)
  }

  /** Speed and ETA appear exactly in the transfer layout. */
  lemma SpeedAndEtaOnlyWhileTransferring(st: TaskStatus)
    ensures (exists c :: c in Render(st).cells && c.Speed?) <==> !IsVerifying(st)
    ensures (exists c :: c in Render(st).cells && c.Eta?) <==> !IsVerifying(st)
  {
    var cells := Render(st).cells;
    if !IsVerifying(st) {
      assert cells[2].Speed? && cells[3].Eta?;
    }
  }

  /** Both layouts count uploads from the same fields; the verifying layout shows the verified
      count beside them, and a change in that count moves nothing else on the card. */
  lemma CountersAreSeparate(st: TaskStatus, verified: nat)
    ensures Render(st).cells[0] == Count(if IsVerifying(st) then "Uploaded Files" else "Files", st.processedFiles, st.totalFiles)
    ensures IsVerifying(st) ==> Render(st).panel == Some(VerifyPanel(st.verifyingFiles, st.totalFiles))
    ensures var other := Render(st.(verifyingFiles := verified));
      other.cells == Render(st).cells && other.currentFile == Render(st).currentFile && other.bar == Render(st).bar
  {
  }

  /** The current file is named exactly when there is one and the task is running or
      verifying, and it is called the verified file exactly while verifying. */
  lemma CurrentFileLine(st: TaskStatus)
    ensures Render(st).currentFile.Some? <==>
      st.currentFile != "" && (st.status == "running" || st.status == "verifying")
    ensures Render(st).currentFile.Some? ==>
      Render(st).currentFile.value.1 == st.currentFile &&
      (Render(st).currentFile.value.0 == "Verifying file:" <==> IsVerifying(st))
  {
  }
}
