/** The four-step wizard: its state machine and progress bar (webui/src/App.tsx) and the step
    indicator drawn from the store's current step (webui/src/components/workflow/StepIndicator.tsx). */
module Wizard {
  import opened Types

  // ----- App.tsx -----

  datatype App = App(step: WorkflowStep, selectedFolders: seq<string>, taskId: string)

  /** The wizard starts at the scan step with nothing selected and no task. */
  const InitialApp: App := App(Scan, [], "")

  /** A callback a page can invoke. */
  datatype Event =
    | ScanDone
    | FoldersSelected(folders: seq<string>)
    | BackToScanFromSelect
    | MigrationStarted(id: string)
    | BackToSelect
    | BackToScan

  /** The step whose page offers the callback. */
  function Origin(e: Event): WorkflowStep {
    match e
    case ScanDone => Scan
    case FoldersSelected(_) => Select
    case BackToScanFromSelect => Select
    case MigrationStarted(_) => Config
    case BackToSelect => Config
    case BackToScan => Migration
  }

  /** A callback that runs when a request settles rather than on a click. The config page's Back
      button stays enabled while the task is being created, so the page may already be gone when
      `createMigration` answers; its `onNext` still runs. */
  predicate Settles(e: Event) {
    e.MigrationStarted?
  }

  /** The wizard after a callback. Only the page of the current step is rendered, so a click
      callback of another step's page cannot happen and changes nothing. A settled start is
      handled on whatever step the wizard is at, as `handleMigrationStarted` does. */
  function Handle(a: App, e: Event): (r: App)
    ensures !Settles(e) && Origin(e) != a.step ==> r == a
    ensures e.MigrationStarted? ==> r == App(Migration, a.selectedFolders, e.id)
    ensures Origin(e) == a.step && e.FoldersSelected? ==> r == App(Config, e.folders, a.taskId)
    ensures Origin(e) == a.step && e.BackToScan? ==> r == InitialApp
    ensures Origin(e) == a.step && e.ScanDone? ==> r == a.(step := Select)
    ensures Origin(e) == a.step && e.BackToScanFromSelect? ==> r == a.(step := Scan)
    ensures Origin(e) == a.step && e.BackToSelect? ==> r == a.(step := Select)
  {
    if !Settles(e) && Origin(e) != a.step then a
    else match e
      case ScanDone => a.(step := Select)
      case FoldersSelected(folders) => a.(selectedFolders := folders, step := Config)
      case BackToScanFromSelect => a.(step := Scan)
      case MigrationStarted(id) => a.(taskId := id, step := Migration)
      case BackToSelect => a.(step := Select)
      case BackToScan => App(Scan, [], "")
  }

  /** The wizard after a series of callbacks. Whatever came before, a series that ends with a
      settled start leaves the wizard at the migration step with that task. */
  function Run(a: App, events: seq<Event>): (r: App)
    ensures |events| == 0 ==> r == a
    ensures |events| > 0 && events[|events| - 1].MigrationStarted? ==>
      r.step == Migration && r.taskId == events[|events| - 1].id
    decreases |events|
  {
    if |events| == 0 then a else Run(Handle(a, events[0]), events[1..])
  }

  /** Whatever the callbacks, a task id is only held at the migration step: it is set when the
      wizard enters that step and cleared when it leaves. */
  predicate TaskOnlyWhileMigrating(a: App) {
    a.step != Migration ==> a.taskId == ""
  }

  lemma {:induction false} RunKeepsTaskOnlyWhileMigrating(a: App, events: seq<Event>)
    requires TaskOnlyWhileMigrating(a)
    ensures TaskOnlyWhileMigrating(Run(a, events))
    decreases |events|
  {
    if |events| > 0 {
      RunKeepsTaskOnlyWhileMigrating(Handle(a, events[0]), events[1..]);
    }
  }

  /** Position of a step in the wizard. */
  function Index(step: WorkflowStep): (i: nat)
    ensures i < 4
  {
    match step
    case Scan => 0
    case Select => 1
    case Config => 2
    case Migration => 3
  }

  /** The progress bar's width, in percent. */
  function Width(step: WorkflowStep): (w: nat)
    ensures w == 25 * (Index(step) + 1)
  {
    match step
    case Scan => 25
    case Select => 50
    case Config => 75
    case Migration => 100
  }

  /** Moving forward widens the bar: the width follows the step order strictly, and reaches 100
      only at the last step. */
  lemma WidthFollowsOrder(s: WorkflowStep, t: WorkflowStep)
    ensures Index(s) < Index(t) <==> Width(s) < Width(t)
    ensures Width(s) == 100 <==> s == Migration
  {
  }

  /** Every forward click moves exactly one step on and every backward click moves back; a
      settled start lands on the migration step from wherever the wizard is, which is one step
      on only from the config page. */
  lemma CallbacksMoveOneStepForward(a: App, e: Event)
    ensures Origin(e) == a.step && (e.ScanDone? || e.FoldersSelected? || e.MigrationStarted?) ==>
      Index(Handle(a, e).step) == Index(a.step) + 1
    ensures Origin(e) == a.step && (e.BackToScanFromSelect? || e.BackToSelect? || e.BackToScan?) ==>
      Index(Handle(a, e).step) < Index(a.step)
    ensures e.MigrationStarted? ==> Handle(a, e).step == Migration
    ensures e.MigrationStarted? ==> (Index(Handle(a, e).step) == Index(a.step) + 1 <==> a.step == Config)
  {
  }

  /** Start Migration, then Back (and Back again) before the task is created: the wizard jumps
      from the select step, or from the scan step, straight to the migration step, keeping the
      folders chosen earlier. */
  lemma LateStartSkipsSteps(folders: seq<string>, id: string)
    ensures Run(InitialApp, [ScanDone, FoldersSelected(folders), BackToSelect, MigrationStarted(id)])
            == App(Migration, folders, id)
    ensures Run(InitialApp, [ScanDone, FoldersSelected(folders), BackToSelect, BackToScanFromSelect, MigrationStarted(id)])
            == App(Migration, folders, id)
  {
    var atConfig := App(Config, folders, "");
    assert Run(InitialApp, [ScanDone, FoldersSelected(folders)]) == atConfig by {
      assert Handle(InitialApp, ScanDone) == App(Select, [], "");
      assert Handle(App(Select, [], ""), FoldersSelected(folders)) == atConfig;
      RunCons(InitialApp, ScanDone, [FoldersSelected(folders)]);
      RunCons(App(Select, [], ""), FoldersSelected(folders), []);
    }
    RunAppend(InitialApp, [ScanDone, FoldersSelected(folders)], [BackToSelect, MigrationStarted(id)]);
    RunAppend(InitialApp, [ScanDone, FoldersSelected(folders)], [BackToSelect, BackToScanFromSelect, MigrationStarted(id)]);
    assert [ScanDone, FoldersSelected(folders)] + [BackToSelect, MigrationStarted(id)]
        == [ScanDone, FoldersSelected(folders), BackToSelect, MigrationStarted(id)];
    assert [ScanDone, FoldersSelected(folders)] + [BackToSelect, BackToScanFromSelect, MigrationStarted(id)]
        == [ScanDone, FoldersSelected(folders), BackToSelect, BackToScanFromSelect, MigrationStarted(id)];
    RunCons(atConfig, BackToSelect, [MigrationStarted(id)]);
    RunCons(App(Select, folders, ""), MigrationStarted(id), []);
    RunCons(atConfig, BackToSelect, [BackToScanFromSelect, MigrationStarted(id)]);
    RunCons(App(Select, folders, ""), BackToScanFromSelect, [MigrationStarted(id)]);
    RunCons(App(Scan, folders, ""), MigrationStarted(id), []);
  }

  lemma RunCons(a: App, e: Event, rest: seq<Event>)
    ensures Run(a, [e] + rest) == Run(Handle(a, e), rest)
  {
    assert ([e] + rest)[1..] == rest;
  }

  /** Callbacks in two batches act as the whole series. */
  lemma {:induction false} RunAppend(a: App, xs: seq<Event>, ys: seq<Event>)
    ensures Run(a, xs + ys) == Run(Run(a, xs), ys)
    decreases |xs|
  {
    if |xs| == 0 {
      assert xs + ys == ys;
    } else {
      assert (xs + ys)[0] == xs[0];
      assert (xs + ys)[1..] == xs[1..] + ys;
      RunAppend(Handle(a, xs[0]), xs[1..], ys);
    }
  }

  // ----- StepIndicator.tsx -----

  /** The indicator's step identifiers, in order. */
  const Steps: seq<string> := ["scan", "select", "config", "migration"]

  /** `findIndex` of the current step: its position, or −1 for an unknown identifier. */
  function CurrentIndex(current: string): (i: int)
    ensures -1 <= i < |Steps|
    ensures i >= 0 ==> Steps[i] == current
    ensures i == -1 <==> current !in Steps
  {
    if current == "scan" then 0
    else if current == "select" then 1
    else if current == "config" then 2
    else if current == "migration" then 3
    else -1
  }

  predicate IsActive(index: nat, current: string) {
    index <= CurrentIndex(current)
  }

  predicate IsCurrent(index: nat, current: string)
    requires index < |Steps|
  {
    Steps[index] == current
  }

  /** The connector after step `index` is filled. */
  predicate ConnectorFilled(index: nat, current: string) {
    index < CurrentIndex(current)
  }

  /** The active steps form a prefix ending at the current step; an unknown step activates
      nothing. */
  lemma ActiveStepsArePrefix(i: nat, j: nat, current: string)
    requires i <= j < |Steps|
    ensures IsActive(j, current) ==> IsActive(i, current)
    ensures current !in Steps ==> !IsActive(i, current)
  {
  }

  /** A known step is current at exactly one position, which is the last active one; an unknown
      step is current nowhere. */
  lemma ExactlyOneCurrent(current: string, i: nat)
    requires i < |Steps|
    ensures IsCurrent(i, current) <==> i == CurrentIndex(current)
    ensures IsCurrent(i, current) ==> IsActive(i, current) && !IsActive(i + 1, current)
  {
  }

  /** Connector i is filled exactly when both of its ends are active. */
  lemma ConnectorBetweenActiveSteps(i: nat, current: string)
    requires i + 1 < |Steps|
    ensures ConnectorFilled(i, current) <==> IsActive(i, current) && IsActive(i + 1, current)
  {
  }

  /** For every wizard step, the indicator's current position is the step's own position, so the
      progress bar and the indicator agree. */
  lemma IndicatorAgreesWithWizard(step: WorkflowStep)
    ensures CurrentIndex(StepId(step)) == Index(step)
    ensures Width(step) == 25 * (CurrentIndex(StepId(step)) + 1)
  {
  }
}
