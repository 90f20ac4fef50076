/** The device connection dialog (webui/src/components/DeviceConfigDialog.tsx): the form prefilled
    when the dialog opens, its validation, the connection test and the connect button. The
    two-second automatic close after a successful test is not modelled. */
module DeviceConfigDialog {
  import opened Wrappers
  import opened Text
  import opened Types
  import opened ApiRetry
  import opened ConfigPage

  /** A device found by discovery, or one entered by hand. */
  datatype Mode = Discovered | Manual

  datatype FormData = FormData(host: string, username: string, password: string)

  /** The error message of each field, when it has one. */
  datatype FormErrors = FormErrors(host: Option<string>, username: Option<string>, password: Option<string>)

  const NoErrors: FormErrors := FormErrors(None, None, None)

  datatype Dialog = Dialog(form: FormData, testing: bool, testResult: Option<TestResult>, errors: FormErrors)

  /** The host a discovered device is reached at. */
  function DeviceHost(d: ZimaOSDevice): string {
    "http://" + d.ip + ":" + IntToString(d.port)
  }

  /** The reset when the dialog opens (or its mode or device changes while open): a discovered
      device prefills its host, anything else starts empty; the test result and the errors are
      cleared. A closed dialog keeps its state. */
  function Prefill(d: Dialog, open: bool, mode: Mode, device: Option<ZimaOSDevice>): (r: Dialog)
    ensures !open ==> r == d
    ensures open && mode == Discovered && device.Some? ==> r.form == FormData(DeviceHost(device.value), "", "")
    ensures open && !(mode == Discovered && device.Some?) ==> r.form == FormData("", "", "")
    ensures open ==> r.testResult.None? && r.errors == NoErrors
  {
    if !open then d
    else
      var form := if mode == Discovered && device.Some? then FormData(DeviceHost(device.value), "", "")
                  else FormData("", "", "");
      d.(form := form, testResult := None, errors := NoErrors)
  }

  predicate HasScheme(host: string) {
    StartsWith(host, "http://") || StartsWith(host, "https://")
  }

  /** `validateForm`'s errors: in manual mode the host must be present and start with a scheme;
      the username and password are required in both modes. */
  function Validate(mode: Mode, f: FormData): (e: FormErrors)
    ensures mode == Manual && f.host == "" ==> e.host == Some("Host is required")
    ensures mode == Manual && f.host != "" && !HasScheme(f.host) ==> e.host == Some("Host must start with http:// or https://")
    ensures mode == Discovered || HasScheme(f.host) ==> e.host.None?
    ensures e.username.Some? <==> f.username == ""
    ensures e.password.Some? <==> f.password == ""
  {
    var host := if mode == Manual then
                  if f.host == "" then Some("Host is required")
                  else if !HasScheme(f.host) then Some("Host must start with http:// or https://")
                  else None
                else None;
    FormErrors(host,
               if f.username == "" then Some("Username is required") else None,
               if f.password == "" then Some("Password is required") else None)
  }

  /** The form is valid exactly when no field has an error. */
  predicate IsValid(mode: Mode, f: FormData) {
    Validate(mode, f) == NoErrors
  }

  /** Validity spelled out: credentials always, and a host with a scheme in manual mode only. */
  lemma ValidIff(mode: Mode, f: FormData)
    ensures IsValid(mode, f) <==> f.username != "" && f.password != "" && (mode == Manual ==> HasScheme(f.host))
  {
  }

  /** A discovered device's prefilled host would pass even the manual host check. */
  lemma PrefilledHostHasScheme(d: Dialog, device: ZimaOSDevice)
    ensures HasScheme(Prefill(d, true, Discovered, Some(device)).form.host)
  {
    var h := DeviceHost(device);
    assert h[..7] == "http://";
  }

  /** Discovered mode does not look at the host: opened without a device, the form keeps an
      empty host and still validates once the credentials are filled in. */
  lemma DiscoveredWithoutDeviceSkipsHost(d: Dialog, username: string, password: string)
    requires username != "" && password != ""
    ensures var p := Prefill(d, true, Discovered, None);
      p.form.host == "" && IsValid(Discovered, p.form.(username := username, password := password))
  {
  }

  /** `handleTestConnection`: the errors are replaced by the validation's; an invalid form sends
      nothing, a valid one sends the test and shows its result. Returns the next state and
      whether a test was sent. */
  function TestConnection(d: Dialog, mode: Mode, outcome: Outcome<()>): (r: (Dialog, bool))
    ensures r.0.errors == Validate(mode, d.form) && r.0.form == d.form
    ensures r.1 <==> IsValid(mode, d.form)
    ensures !r.1 ==> r.0.testResult == d.testResult && r.0.testing == d.testing
    ensures r.1 ==> r.0.testResult == Some(TestOutcome(outcome)) && !r.0.testing
  {
    var checked := d.(errors := Validate(mode, d.form));
    if !IsValid(mode, d.form) then (checked, false)
    else (checked.(testing := false, testResult := Some(TestOutcome(outcome))), true)
  }

  /** What the connect button does outside the dialog: the configuration handed to `onSuccess`
      and whether the dialog asked to close. */
  datatype Connected = Connected(saved: Option<FormData>, closed: bool, tested: bool)

  /** `handleConnect`: after a successful test the form is handed on and the dialog closes;
      otherwise the connection is tested. */
  function Connect(d: Dialog, mode: Mode, outcome: Outcome<()>): (r: (Dialog, Connected))
    ensures Succeeded(d.testResult) ==> r == (d, Connected(Some(d.form), true, false))
    ensures !Succeeded(d.testResult) ==>
      r.1.saved.None? && !r.1.closed && r.0 == TestConnection(d, mode, outcome).0 &&
      r.1.tested == TestConnection(d, mode, outcome).1
  {
    if Succeeded(d.testResult) then (d, Connected(Some(d.form), true, false))
    else
      var t := TestConnection(d, mode, outcome);
      (t.0, Connected(None, false, t.1))
  }

  /** The connect button is enabled only while no test runs and the last test succeeded. */
  predicate ConnectEnabled(d: Dialog) {
    !d.testing && Succeeded(d.testResult)
  }

  /** A click on the connect button: nothing while it is disabled, otherwise `handleConnect`,
      which then always takes its first branch: the tested form is handed on and the dialog
      closes, so the button never starts a test itself. */
  function ClickConnect(d: Dialog, mode: Mode, outcome: Outcome<()>): (r: Option<(Dialog, Connected)>)
    ensures r.Some? <==> ConnectEnabled(d)
    ensures r.Some? ==> r.value == (d, Connected(Some(d.form), true, false))
  {
    if ConnectEnabled(d) then Some(Connect(d, mode, outcome)) else None
  }

  /** Testing a valid form enables the connect button exactly when the test succeeds, and the
      click that follows hands on that very form and closes the dialog. An invalid form sends no
      test and leaves the button as it was. */
  lemma TestThenConnect(d: Dialog, mode: Mode, outcome: Outcome<()>, later: Outcome<()>)
    ensures IsValid(mode, d.form) ==>
              (ConnectEnabled(TestConnection(d, mode, outcome).0) <==> outcome.Resolved?)
    ensures IsValid(mode, d.form) && outcome.Resolved? ==>
              ClickConnect(TestConnection(d, mode, outcome).0, mode, later).Some? &&
              ClickConnect(TestConnection(d, mode, outcome).0, mode, later).value.1 ==
                Connected(Some(d.form), true, false)
    ensures !IsValid(mode, d.form) ==> ConnectEnabled(TestConnection(d, mode, outcome).0) == ConnectEnabled(d)
  {
  }

  /** A freshly opened dialog cannot connect; once the credentials are filled in and the test
      succeeds, the connect click hands exactly the filled-in form on and closes the dialog. */
  lemma OpenTestConnect(d: Dialog, device: Option<ZimaOSDevice>, username: string, password: string,
                        outcome: Outcome<()>, later: Outcome<()>)
    requires username != "" && password != "" && outcome.Resolved?
    ensures var shown := Prefill(d, true, Discovered, device);
      var filled := shown.(form := shown.form.(username := username, password := password));
      var tested := TestConnection(filled, Discovered, outcome).0;
      !ConnectEnabled(shown) && !ConnectEnabled(filled) &&
      ClickConnect(tested, Discovered, later) == Some((tested, Connected(Some(filled.form), true, false)))
  {
  }
}
