/** The destination configuration page (webui/src/pages/ConfigPage.tsx): the connection form and
    its defaults, the connection test, and the start of a migration. Each handler is a step
    function from the page's state and the outcome of its request to the next state and the
    request it sent. */
module ConfigPage {
  import opened Wrappers
  import opened Types
  import opened JsonValue
  import opened ApiRetry
  import ApiClient

  /** The outcome of a connection test as the page shows it. */
  datatype TestResult = TestResult(success: bool, message: string)

  /** The result of a test request: success, or what the request threw. */
  function TestOutcome(outcome: Outcome<()>): TestResult {
    match outcome
    case Resolved(_) => TestResult(true, "Connection successful!")
    case Rejected(t) => TestResult(false, CaughtMessage(t, "Connection failed"))
  }

  predicate Succeeded(r: Option<TestResult>) {
    r.Some? && r.value.success
  }

  datatype Form = Form(host: string, username: string, password: string, basePath: string,
                       options: MigrationOptions, testing: bool, testResult: Option<TestResult>,
                       creating: bool, error: string)

  /** The page's initial options: no overwriting, errors skipped, times preserved. The page sets
      no recycle-bin choice, which the server reads as false. */
  const InitialOptions: MigrationOptions := MigrationOptions(false, true, true, false)

  const InitialForm: Form := Form("", "", "", "/DATA", InitialOptions, false, None, false, "")

  /** The page starts with base path `/DATA`, no test result, and the options above. */
  lemma InitialFormDefaults()
    ensures InitialForm.basePath == "/DATA" && InitialForm.testResult.None?
    ensures !InitialForm.options.overwriteExisting && InitialForm.options.skipErrors && InitialForm.options.preserveTimes
  {
  }

  // ----- Editing -----

  /** A change to one input of the form. */
  datatype Edit =
    | EditHost(value: string)
    | EditUsername(value: string)
    | EditPassword(value: string)
    | EditBasePath(value: string)
    | SetOverwrite(on: bool)
    | SetSkipErrors(on: bool)
    | SetPreserveTimes(on: bool)

  /** An input's change handler: only that field changes. */
  function ApplyEdit(f: Form, e: Edit): (r: Form)
    ensures r.testResult == f.testResult && r.testing == f.testing && r.creating == f.creating && r.error == f.error
    ensures e.EditHost? ==> r.host == e.value && r.username == f.username && r.password == f.password
    ensures e.EditUsername? ==> r.username == e.value && r.host == f.host && r.password == f.password
    ensures e.EditPassword? ==> r.password == e.value && r.host == f.host && r.username == f.username
  {
    match e
    case EditHost(v) => f.(host := v)
    case EditUsername(v) => f.(username := v)
    case EditPassword(v) => f.(password := v)
    case EditBasePath(v) => f.(basePath := v)
    case SetOverwrite(on) => f.(options := f.options.(overwriteExisting := on))
    case SetSkipErrors(on) => f.(options := f.options.(skipErrors := on))
    case SetPreserveTimes(on) => f.(options := f.options.(preserveTimes := on))
  }

  function ApplyEdits(f: Form, edits: seq<Edit>): Form
    decreases |edits|
  {
    if |edits| == 0 then f else ApplyEdits(ApplyEdit(f, edits[0]), edits[1..])
  }

  /** Editing never clears a test result: a success stays a success after any changes to the
      host, the credentials or the options. */
  lemma {:induction false} EditsKeepTestResult(f: Form, edits: seq<Edit>)
    ensures ApplyEdits(f, edits).testResult == f.testResult
    decreases |edits|
  {
    if |edits| > 0 {
      EditsKeepTestResult(ApplyEdit(f, edits[0]), edits[1..]);
    }
  }

  // ----- handleTestConnection -----

  /** A test may be sent only with a host, a username and a password. */
  predicate CanTest(f: Form) {
    f.host != "" && f.username != "" && f.password != ""
  }

  /** `handleTestConnection`: with a field missing nothing is sent (an alert is shown);
      otherwise the test is sent with the form's credentials, and the old result is replaced by
      the new one. Returns the next state and the credentials sent. */
  function TestConnection(f: Form, outcome: Outcome<()>): (r: (Form, Option<(string, string, string)>))
    ensures !CanTest(f) ==> r == (f, None)
    ensures CanTest(f) ==> r.1 == Some((f.host, f.username, f.password))
    ensures CanTest(f) ==> r.0.testResult == Some(TestOutcome(outcome)) && !r.0.testing && r.0.error == ""
    ensures r.0.host == f.host && r.0.username == f.username && r.0.password == f.password
  {
    if !CanTest(f) then (f, None)
    else
      var inFlight := f.(testing := true, testResult := None, error := "");
      (inFlight.(testing := false, testResult := Some(TestOutcome(outcome))), Some((f.host, f.username, f.password)))
  }

  // ----- handleStartMigration -----

  /** The Start button is disabled without a successful test, and while a creation is running. */
  predicate StartDisabled(f: Form) {
    !Succeeded(f.testResult) || f.creating
  }

  /** `handleStartMigration`: without a successful test nothing is sent (an alert is shown);
      otherwise the task is created from the form as it is now, and on success the next step
      receives the new task's id. Returns the next state, the request body sent and the id handed
      on. */
  function StartMigration(f: Form, folders: seq<string>, outcome: Outcome<string>)
    : (r: (Form, Option<Json>, Option<string>))
    ensures !Succeeded(f.testResult) ==> r == (f, None, None)
    ensures Succeeded(f.testResult) ==>
      r.1 == Some(ApiClient.CreateMigrationBody(folders, f.host, f.username, f.password, f.basePath, f.options)) &&
      !r.0.creating
    ensures Succeeded(f.testResult) && outcome.Resolved? ==> r.2 == Some(outcome.value) && r.0.error == ""
    ensures Succeeded(f.testResult) && outcome.Rejected? ==>
      r.2.None? && r.0.error == CaughtMessage(outcome.reason, "Failed to create migration task")
    ensures r.0.testResult == f.testResult
  {
    if !Succeeded(f.testResult) then (f, None, None)
    else
      var body := ApiClient.CreateMigrationBody(folders, f.host, f.username, f.password, f.basePath, f.options);
      var inFlight := f.(creating := true, error := "");
      match outcome
      case Resolved(taskId) => (inFlight.(creating := false), Some(body), Some(taskId))
      case Rejected(t) =>
        (inFlight.(creating := false, error := CaughtMessage(t, "Failed to create migration task")), Some(body), None)
  }

  /** A creation request is sent exactly when the Start button would be enabled, outside a
      running creation. */
  lemma StartSendsIffEnabled(f: Form, folders: seq<string>, outcome: Outcome<string>)
    requires !f.creating
    ensures StartMigration(f, folders, outcome).1.Some? <==> !StartDisabled(f)
  {
  }

  /** A successful test is not tied to the credentials it tested: after the host is edited, the
      migration starts with the new host, never tested. */
  lemma StartUsesUntestedEdits(f: Form, tested: Outcome<()>, newHost: string, folders: seq<string>,
                               created: Outcome<string>)
    requires CanTest(f) && tested.Resolved?
    ensures var g := ApplyEdit(TestConnection(f, tested).0, EditHost(newHost));
      StartMigration(g, folders, created).1 ==
        Some(ApiClient.CreateMigrationBody(folders, newHost, f.username, f.password, f.basePath, f.options))
  {
  }
}
