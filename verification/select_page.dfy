/** The folder-selection page (webui/src/pages/SelectPage.tsx): loading the scan result, toggling
    folders in and out of the selection, and handing the selection to the next step. The
    selection is a JavaScript `Set`; it is kept as its elements in insertion order, which is the
    order `Array.from` lists them in. */
module SelectPage {
  import opened Wrappers
  import opened Types
  import opened ApiRetry
  import AppStore
  import FileTree
  import Scanner

  // ----- Loading the scan result -----

  /** The page's state: still loading, the scan result, the selection and the error text. */
  datatype Page = Page(loading: bool, scanResult: Option<ScanResult>, selected: seq<string>, error: string)

  const InitialPage: Page := Page(true, None, [], "")

  /** The mount-time load once the scan request settles: the result or the error is shown, and
      loading ends either way. */
  function LoadScanResult(p: Page, outcome: Outcome<ScanResult>): (r: Page)
    ensures !r.loading && r.selected == p.selected
    ensures outcome.Resolved? ==> r.scanResult == Some(outcome.value) && r.error == p.error
    ensures outcome.Rejected? ==> r.scanResult == p.scanResult &&
                                  r.error == CaughtMessage(outcome.reason, "Failed to load scan result")
  {
    match outcome
    case Resolved(result) => p.(loading := false, scanResult := Some(result))
    case Rejected(t) => p.(loading := false, error := CaughtMessage(t, "Failed to load scan result"))
  }

  /** What the page draws: the spinner while loading, the error panel for a non-empty error, and
      otherwise the folder list of the result with the selection count. A result that carries no
      volume list (`"volumes": null`) makes the list's `scanResult?.volumes.map` throw: the page
      then draws nothing of its own, and what replaces it is up to the error boundary around the
      app, which is not part of this model. */
  datatype Screen = Spinner | ErrorPanel(text: string) | Crashed | Listing(result: Option<ScanResult>, selectedCount: nat)

  /** A held result without a volume list, on which the list's render throws. */
  predicate NullVolumes(r: Option<ScanResult>) {
    r.Some? && r.value.volumes.None?
  }

  /** The render guards: loading first, then a truthy error, then the list. */
  function Render(p: Page): (v: Screen)
    ensures v.Spinner? <==> p.loading
    ensures v.ErrorPanel? <==> !p.loading && p.error != ""
    ensures v.ErrorPanel? ==> v.text == p.error
    ensures v.Crashed? <==> !p.loading && p.error == "" && NullVolumes(p.scanResult)
    ensures v.Listing? ==> v.result == p.scanResult && v.selectedCount == |p.selected|
  {
    if p.loading then Spinner
    else if p.error != "" then ErrorPanel(p.error)
    else if NullVolumes(p.scanResult) then Crashed
    else Listing(p.scanResult, |p.selected|)
  }

  /** Whatever the page held, a settled load stops the spinner. A failed load keeps any result
      already held and shows the error panel exactly when the caught message is non-empty (an
      `Error` with an empty message leaves the held result on screen). A successful load is
      listed unless an earlier error is still set or the result has no volume list. */
  lemma LoadThenRender(p: Page, outcome: Outcome<ScanResult>)
    ensures !Render(LoadScanResult(p, outcome)).Spinner?
    ensures outcome.Rejected? ==>
      LoadScanResult(p, outcome).scanResult == p.scanResult &&
      (Render(LoadScanResult(p, outcome)).ErrorPanel? <==> CaughtMessage(outcome.reason, "Failed to load scan result") != "")
    ensures outcome.Resolved? && p.error == "" && outcome.value.volumes.Some? ==>
      Render(LoadScanResult(p, outcome)) == Listing(Some(outcome.value), |p.selected|)
    ensures outcome.Resolved? && p.error == "" && outcome.value.volumes.None? ==>
      Render(LoadScanResult(p, outcome)) == Crashed
    ensures outcome.Resolved? && p.error != "" ==> Render(LoadScanResult(p, outcome)) == ErrorPanel(p.error)
  {
  }

  /** On mount: the spinner, then the list of the result with nothing selected (or the thrown
      render for a result without a volume list), or the error panel; a non-`Error` rejection
      shows the fallback text. */
  lemma MountLoadShows(outcome: Outcome<ScanResult>)
    ensures Render(InitialPage) == Spinner
    ensures outcome.Resolved? && outcome.value.volumes.Some? ==>
      Render(LoadScanResult(InitialPage, outcome)) == Listing(Some(outcome.value), 0)
    ensures outcome.Resolved? && outcome.value.volumes.None? ==>
      Render(LoadScanResult(InitialPage, outcome)) == Crashed
    ensures outcome.Rejected? && outcome.reason.OtherValue? ==>
      Render(LoadScanResult(InitialPage, outcome)) == ErrorPanel("Failed to load scan result")
  {
  }

  /** A readable host with no listed `volume…` directory is scanned successfully, yet the page
      showing that scan throws instead of listing anything; with at least one listed volume the
      list is drawn. */
  lemma HostWithoutVolumesCrashes(hostPath: string, entries: seq<FileTree.FsNode>, now: Time)
    ensures var scan := Scanner.PerformScan(hostPath, Some(entries), now);
      scan.Ok? &&
      (Render(LoadScanResult(InitialPage, Resolved(scan.value))) == Crashed <==>
       forall i :: 0 <= i < |entries| ==> !Scanner.ListedVolume(entries[i]))
  {
  }

  // ----- toggleFolder -----

  /** No path is listed twice, as in a `Set`. */
  ghost predicate NoDuplicates(s: seq<string>) {
    forall x :: multiset(s)[x] <= 1
  }

  /** `toggleFolder`: a selected path is removed and an unselected one is added at the end. */
  function Toggle(s: seq<string>, path: string): (r: seq<string>)
    ensures path in r <==> path !in s
    ensures forall x :: x != path ==> (x in r <==> x in s)
    ensures NoDuplicates(s) ==> NoDuplicates(r)
    ensures path in s ==> multiset(r) == multiset(s)[path := 0]
    ensures path !in s ==> r == s + [path]
  {
    if path in s then
      var r := AppStore.Without(s, path);
      assert forall x :: x != path ==> (x in r <==> multiset(r)[x] > 0);
      r
    else
      s + [path]
  }

  /** Toggling an unselected path twice gives back exactly the same selection, order included;
      for a selected path the same paths are selected again, with that path moved to the end. */
  lemma ToggleTwice(s: seq<string>, path: string)
    ensures path !in s ==> Toggle(Toggle(s, path), path) == s
    ensures forall x :: x in Toggle(Toggle(s, path), path) <==> x in s
  {
    if path !in s {
      AppStore.WithoutConcat(s, [path], path);
      assert AppStore.Without([path], path) == [] by {
        assert [path][1..] == [];
      }
      WithoutAbsent(s, path);
    }
  }

  lemma {:induction false} WithoutAbsent(s: seq<string>, path: string)
    requires path !in s
    ensures AppStore.Without(s, path) == s
  {
    if |s| > 0 {
      assert path !in s[1..];
      WithoutAbsent(s[1..], path);
      assert s == [s[0]] + s[1..];
    }
  }

  /** The selection after a series of clicks, starting from `s`. */
  function ToggleAll(s: seq<string>, clicks: seq<string>): seq<string>
    decreases |clicks|
  {
    if |clicks| == 0 then s else Toggle(ToggleAll(s, clicks[..|clicks| - 1]), clicks[|clicks| - 1])
  }

  /** One click flips the clicked path's count between 0 and 1 and leaves every other count. */
  lemma ToggleCount(s: seq<string>, path: string, x: string)
    requires NoDuplicates(s)
    ensures multiset(Toggle(s, path))[x] == if x == path then 1 - multiset(s)[x] else multiset(s)[x]
  {
    if path !in s {
      assert multiset(s + [path]) == multiset(s) + multiset{path};
    }
  }

  lemma OneMoreFlipsParity(c: nat)
    ensures (c + 1) % 2 == 1 - c % 2
  {
  }

  /** Each path is selected exactly when it was clicked an odd number of times. */
  ghost predicate OddClicksSelected(sel: seq<string>, clicks: seq<string>) {
    forall x :: multiset(sel)[x] == multiset(clicks)[x] % 2
  }

  /** From an empty selection, a path ends up selected exactly when it was clicked an odd number
      of times, and no path is listed twice. */
  lemma {:induction false} ToggleAllParity(clicks: seq<string>)
    ensures NoDuplicates(ToggleAll([], clicks))
    ensures OddClicksSelected(ToggleAll([], clicks), clicks)
    decreases |clicks|
  {
    if |clicks| > 0 {
      var init := clicks[..|clicks| - 1];
      var last := clicks[|clicks| - 1];
      ToggleAllParity(init);
      assert clicks == init + [last];
      ParityStep(ToggleAll([], init), init, last);
    }
  }

  /** One more click keeps the selection duplicate-free and the parity invariant. */
  lemma ParityStep(before: seq<string>, init: seq<string>, last: string)
    requires NoDuplicates(before) && OddClicksSelected(before, init)
    ensures NoDuplicates(Toggle(before, last))
    ensures OddClicksSelected(Toggle(before, last), init + [last])
  {
    forall x
      ensures multiset(Toggle(before, last))[x] == multiset(init + [last])[x] % 2
    {
      ParityStepAt(before, init, last, x);
    }
  }

  lemma ParityStepAt(before: seq<string>, init: seq<string>, last: string, x: string)
    requires NoDuplicates(before) && multiset(before)[x] == multiset(init)[x] % 2
    ensures multiset(Toggle(before, last))[x] == multiset(init + [last])[x] % 2
  {
    ToggleCount(before, last, x);
    assert multiset(init + [last]) == multiset(init) + multiset{last};
    var c := multiset(init)[x];
    if x == last {
      assert multiset(init + [last])[x] == c + 1;
      OneMoreFlipsParity(c);
    } else {
      assert multiset(init + [last])[x] == c;
    }
  }

  // ----- handleNext -----

  /** The Next button is disabled exactly when nothing is selected. */
  predicate NextDisabled(p: Page) {
    |p.selected| == 0
  }

  /** `handleNext`: nothing happens for an empty selection (an alert is shown); otherwise the
      next step receives the selected paths. */
  function HandleNext(p: Page): (r: Option<seq<string>>)
    ensures r.None? <==> NextDisabled(p)
    ensures r.Some? ==> forall x :: x in r.value <==> x in p.selected
    ensures r.Some? && NoDuplicates(p.selected) ==> forall x :: x in r.value ==> multiset(r.value)[x] == 1
  {
    if |p.selected| == 0 then None else Some(p.selected)
  }

  /** Every selection reached by clicking hands each selected path over exactly once. */
  lemma ClickedSelectionHandedOnce(clicks: seq<string>, x: string)
    requires HandleNext(InitialPage.(selected := ToggleAll([], clicks))).Some?
    ensures var r := HandleNext(InitialPage.(selected := ToggleAll([], clicks))).value;
      (x in r <==> multiset(clicks)[x] % 2 == 1) && (x in r ==> multiset(r)[x] == 1)
  {
    ToggleAllParity(clicks);
  }
}
