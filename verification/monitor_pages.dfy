/** The two pages that follow a running task: the wizard's monitor step
    (webui/src/pages/MigrationPage.tsx) and the task detail page
    (webui/src/pages/TaskDetailPage.tsx). Both format durations the same way, refresh the task's
    status on a timer, and offer pause, resume and cancel by status; they differ in how a failed
    refresh is shown. Each request's outcome is a parameter. */
module MonitorPages {
  import opened Wrappers
  import opened Text
  import opened Types
  import opened ApiRetry
  import ApiClient

  // ----- formatTime -----

  /** A duration split into whole hours, minutes below an hour, and seconds below a minute. */
  function Hms(seconds: nat): (r: (nat, nat, nat))
    ensures r.0 * 3600 + r.1 * 60 + r.2 == seconds
    ensures r.1 < 60 && r.2 < 60
  {
    var rest := seconds % 3600;
    assert seconds == (seconds / 3600) * 3600 + rest;
    assert rest == (rest / 60) * 60 + rest % 60;
    SecondsBelowMinute(seconds);
    (seconds / 3600, rest / 60, seconds % 60)
  }

  lemma SecondsBelowMinute(n: nat)
    ensures (n % 3600) % 60 == n % 60
  {
    var q := n / 3600;
    assert n == q * 3600 + n % 3600;
    assert q * 3600 == (q * 60) * 60;
  }

  /** `formatTime` for a whole, non-negative number of seconds: zero is `0s`; otherwise hours,
      minutes and seconds, leaving out leading zero units. */
  function FormatTime(seconds: nat): (r: string)
    ensures seconds == 0 ==> r == "0s"
    ensures |r| >= 2 && r[|r| - 1] == 's'
    ensures ' ' in r <==> seconds >= 60
  {
    if seconds == 0 then "0s"
    else
      var hms := Hms(seconds);
      Fields(hms.0, hms.1, hms.2, hms.0 > 0, hms.1 > 0)
  }

  /** The three textual forms, `Xh Ym Zs`, `Ym Zs` and `Zs`. */
  function Fields(h: nat, m: nat, s: nat, hours: bool, minutes: bool): string {
    var hs, ms, ss := NatToString(h) + "h", NatToString(m) + "m", NatToString(s) + "s";
    if hours then hs + [' '] + (ms + [' '] + ss)
    else if minutes then ms + [' '] + ss
    else ss
  }

  /** One `<digits><unit>` field. */
  function Field(p: string, unit: char): Option<nat> {
    if |p| >= 2 && p[|p| - 1] == unit && IsDigits(p[..|p| - 1]) then Some(DigitsValue(p[..|p| - 1]))
    else None
  }

  /** Reads a formatted duration back: one, two or three space-separated fields. */
  function ParseTime(t: string): Option<nat> {
    var parts := Split(t, ' ');
    if |parts| == 1 then Field(parts[0], 's')
    else if |parts| == 2 then
      var m, s := Field(parts[0], 'm'), Field(parts[1], 's');
      if m.Some? && s.Some? then Some(m.value * 60 + s.value) else None
    else if |parts| == 3 then
      var h, m, s := Field(parts[0], 'h'), Field(parts[1], 'm'), Field(parts[2], 's');
      if h.Some? && m.Some? && s.Some? then Some(h.value * 3600 + m.value * 60 + s.value) else None
    else None
  }

  lemma FieldOf(n: nat, unit: char)
    requires !IsDigit(unit)
    ensures Field(NatToString(n) + [unit], unit) == Some(n)
  {
    var p := NatToString(n) + [unit];
    assert p[..|p| - 1] == NatToString(n);
    NatToStringRoundTrip(n);
  }

  lemma SplitSingle(a: string)
    requires ' ' !in a
    ensures Split(a, ' ') == [a]
  {
  }

  lemma FieldsSplit(h: nat, m: nat, s: nat, hours: bool, minutes: bool)
    ensures Split(Fields(h, m, s, hours, minutes), ' ') ==
      if hours then [NatToString(h) + "h", NatToString(m) + "m", NatToString(s) + "s"]
      else if minutes then [NatToString(m) + "m", NatToString(s) + "s"]
      else [NatToString(s) + "s"]
  {
    var hs, ms, ss := NatToString(h) + "h", NatToString(m) + "m", NatToString(s) + "s";
    SplitSingle(ss);
    if hours {
      SplitAppend(hs, ' ', ms + [' '] + ss);
      SplitAppend(ms, ' ', ss);
    } else if minutes {
      SplitAppend(ms, ' ', ss);
    }
  }

  lemma ParseFields(h: nat, m: nat, s: nat, hours: bool, minutes: bool)
    ensures ParseTime(Fields(h, m, s, hours, minutes)) ==
      Some(if hours then h * 3600 + m * 60 + s else if minutes then m * 60 + s else s)
  {
    var hs, ms, ss := NatToString(h) + "h", NatToString(m) + "m", NatToString(s) + "s";
    FieldsSplit(h, m, s, hours, minutes);
    FieldOf(h, 'h');
    FieldOf(m, 'm');
    FieldOf(s, 's');
    var t := Fields(h, m, s, hours, minutes);
    if hours {
      ParseParts(t, [hs, ms, ss], h, m, s);
    } else if minutes {
      ParseParts(t, [ms, ss], 0, m, s);
    } else {
      ParseParts(t, [ss], 0, 0, s);
    }
  }

  /** `ParseTime` once the fields are known. */
  lemma ParseParts(t: string, parts: seq<string>, h: nat, m: nat, s: nat)
    requires Split(t, ' ') == parts && 1 <= |parts| <= 3
    requires Field(parts[|parts| - 1], 's') == Some(s)
    requires |parts| >= 2 ==> Field(parts[|parts| - 2], 'm') == Some(m)
    requires |parts| == 3 ==> Field(parts[0], 'h') == Some(h)
    ensures ParseTime(t) == Some(if |parts| == 3 then h * 3600 + m * 60 + s else if |parts| == 2 then m * 60 + s else s)
  {
  }

  /** Every nonzero duration is written in the form its leading unit calls for. */
  lemma FormatTimeFields(seconds: nat)
    ensures var hms := Hms(seconds);
      FormatTime(seconds) == Fields(hms.0, hms.1, hms.2, hms.0 > 0, hms.1 > 0)
  {
    if seconds == 0 {
      assert NatToString(0) == "0";
    }
  }

  /** The formatted duration names exactly the seconds it was made from: reading it back gives
      the same number, so no two durations look alike. */
  lemma FormatTimeRoundTrip(seconds: nat)
    ensures ParseTime(FormatTime(seconds)) == Some(seconds)
  {
    var hms := Hms(seconds);
    var h, m, s := hms.0, hms.1, hms.2;
    FormatTimeFields(seconds);
    ParseFields(h, m, s, h > 0, m > 0);
    var v := if h > 0 then h * 3600 + m * 60 + s else if m > 0 then m * 60 + s else s;
    assert v == seconds by {
      assert h * 3600 + m * 60 + s == seconds;
    }
    assert ParseTime(Fields(h, m, s, h > 0, m > 0)) == Some(v);
  }

  lemma FormatTimeInjective(a: nat, b: nat)
    requires FormatTime(a) == FormatTime(b)
    ensures a == b
  {
    FormatTimeRoundTrip(a);
    FormatTimeRoundTrip(b);
  }

  /** The shape of the text: three fields exactly when there is at least an hour, two when there
      is at least a minute but less than an hour, and one otherwise. */
  lemma FormatTimeShape(seconds: nat)
    ensures |Split(FormatTime(seconds), ' ')| == (if seconds >= 3600 then 3 else if seconds >= 60 then 2 else 1)
  {
    var hms := Hms(seconds);
    FormatTimeFields(seconds);
    FieldsSplit(hms.0, hms.1, hms.2, hms.0 > 0, hms.1 > 0);
  }

  /** The ETA cell. The status the server sends carries no ETA, so the pages format an undefined
      value, which JavaScript's arithmetic turns into `NaN` seconds. */
  function EtaText(eta: Option<nat>): (r: string)
    ensures eta.Some? ==> ParseTime(r) == Some(eta.value)
  {
    FormatTimeRoundTrip(if eta.Some? then eta.value else 0);
    if eta.Some? then FormatTime(eta.value) else "NaNs"
  }

  /** What the pages actually show for the ETA: a text that is no duration at all. */
  lemma EtaIsNeverShown()
    ensures ParseTime(EtaText(None)).None?
  {
    assert "NaNs"[..3] == "NaN";
    assert !IsDigit('N');
  }

  // ----- Controls -----

  /** Which buttons a page shows. */
  datatype Controls = Controls(pause: bool, resume: bool, cancel: bool, startNew: bool)

  /** The monitor step's buttons: pause and cancel for a running task, resume and cancel for a
      paused one, and a fresh start once the task is over. */
  function MonitorControls(status: string): (c: Controls)
    ensures c.cancel <==> c.pause || c.resume
    ensures !(c.pause && c.resume) && !(c.startNew && c.cancel)
  {
    var running := status == "running";
    var paused := status == "paused";
    Controls(running, paused, running || paused, status == "completed" || status == "failed" || status == "cancelled")
  }

  /** The detail page's buttons: the same pause, resume and cancel, and no fresh start. */
  function DetailControls(status: string): (c: Controls)
    ensures !c.startNew
  {
    var running := status == "running";
    var paused := status == "paused";
    Controls(running, paused, running || paused, false)
  }

  /** Both pages offer the same task controls for every status, and a task that is verifying,
      pending or over gets none; the fresh start of the monitor step belongs to exactly the
      finished statuses. */
  lemma ControlsByStatus(status: string)
    ensures DetailControls(status) == MonitorControls(status).(startNew := false)
    ensures MonitorControls(status).pause <==> status == "running"
    ensures MonitorControls(status).resume <==> status == "paused"
    ensures status in {"verifying", "pending", "completed", "failed", "cancelled"} ==>
      var c := DetailControls(status); !c.pause && !c.resume && !c.cancel
    ensures MonitorControls(status).startNew <==> status in {"completed", "failed", "cancelled"}
  {
  }

  /** `handleCancel` on the monitor step: without the user's confirmation nothing is sent. */
  function MonitorCancel(taskId: string, confirmed: bool): (r: Option<string>)
    ensures r.Some? <==> confirmed
    ensures r.Some? ==> r.value == ApiClient.ControlPath(taskId, ApiClient.Cancel)
  {
    if !confirmed then None else Some(ApiClient.ControlPath(taskId, ApiClient.Cancel))
  }

  /** The detail page's handlers do nothing without a task id; cancel also needs confirmation. */
  function DetailControl(taskId: string, c: ApiClient.Control, confirmed: bool): (r: Option<string>)
    ensures r.Some? <==> taskId != "" && (c == ApiClient.Cancel ==> confirmed)
    ensures r.Some? ==> r.value == ApiClient.ControlPath(taskId, c)
  {
    if taskId == "" then None
    else if c == ApiClient.Cancel && !confirmed then None
    else Some(ApiClient.ControlPath(taskId, c))
  }

  /** With a task id, the detail page's cancel sends the same request as the monitor step's. */
  lemma CancelAgrees(taskId: string, confirmed: bool)
    requires taskId != ""
    ensures DetailControl(taskId, ApiClient.Cancel, confirmed) == MonitorCancel(taskId, confirmed)
  {
  }

  // ----- The monitor step's refresh -----

  /** The monitor step's state: the last status fetched, the error text, and the first load. */
  datatype Monitor = Monitor(status: Option<TaskStatus>, error: string, loading: bool)

  const InitialMonitor: Monitor := Monitor(None, "", true)

  /** `fetchStatus`, run at mount and then every second: a success shows the new status and
      clears the error, a failure shows the error and keeps the old status; loading ends either
      way. */
  function Fetch(m: Monitor, outcome: Outcome<TaskStatus>): (r: Monitor)
    ensures !r.loading
    ensures outcome.Resolved? ==> r.status == Some(outcome.value) && r.error == ""
    ensures outcome.Rejected? ==> r.status == m.status &&
                                  r.error == CaughtMessage(outcome.reason, "Failed to fetch status")
  {
    match outcome
    case Resolved(st) => Monitor(Some(st), "", false)
    case Rejected(t) => m.(error := CaughtMessage(t, "Failed to fetch status"), loading := false)
  }

  function FetchAll(m: Monitor, outcomes: seq<Outcome<TaskStatus>>): Monitor
    decreases |outcomes|
  {
    if |outcomes| == 0 then m else FetchAll(Fetch(m, outcomes[0]), outcomes[1..])
  }

  /** The status of the last request that succeeded, if any did. */
  function LastResolved(outcomes: seq<Outcome<TaskStatus>>, before: Option<TaskStatus>): (r: Option<TaskStatus>)
    ensures r != before ==> r.Some? && exists k :: 0 <= k < |outcomes| && outcomes[k] == Resolved(r.value)
    decreases |outcomes|
  {
    if |outcomes| == 0 then before
    else if outcomes[|outcomes| - 1].Resolved? then Some(outcomes[|outcomes| - 1].value)
    else
      var r := LastResolved(outcomes[..|outcomes| - 1], before);
      assert forall k :: 0 <= k < |outcomes| - 1 ==> outcomes[..|outcomes| - 1][k] == outcomes[k];
      r
  }

  lemma LastResolvedCons(o: Outcome<TaskStatus>, rest: seq<Outcome<TaskStatus>>, before: Option<TaskStatus>)
    ensures LastResolved([o] + rest, before) ==
      LastResolved(rest, if o.Resolved? then Some(o.value) else before)
    decreases |rest|
  {
    var s := [o] + rest;
    if |rest| > 0 {
      assert s[..|s| - 1] == [o] + rest[..|rest| - 1];
      LastResolvedCons(o, rest[..|rest| - 1], before);
    } else {
      assert s == [o];
    }
  }

  /** After any series of refreshes the page shows the last status that was fetched, and the
      error is shown exactly when the latest refresh failed: one success clears an earlier
      failure. */
  lemma {:induction false} FetchAllShowsLatest(m: Monitor, outcomes: seq<Outcome<TaskStatus>>)
    requires |outcomes| > 0
    ensures FetchAll(m, outcomes).status == LastResolved(outcomes, m.status)
    ensures FetchAll(m, outcomes).error == "" <==>
      (outcomes[|outcomes| - 1].Resolved? ||
       CaughtMessage(outcomes[|outcomes| - 1].reason, "Failed to fetch status") == "")
    ensures !FetchAll(m, outcomes).loading
    decreases |outcomes|
  {
    var next := Fetch(m, outcomes[0]);
    var rest := outcomes[1..];
    assert outcomes == [outcomes[0]] + rest;
    LastResolvedCons(outcomes[0], rest, m.status);
    if |rest| > 0 {
      FetchAllShowsLatest(next, rest);
      assert rest[|rest| - 1] == outcomes[|outcomes| - 1];
    } else {
      assert FetchAll(next, rest) == next;
    }
  }

  /** What the monitor step renders. */
  datatype MonitorView = Spinner | ErrorPanel(message: string) | Blank | Progress(status: TaskStatus)

  function ShowMonitor(m: Monitor): (v: MonitorView)
    ensures v.Progress? ==> m.status == Some(v.status) && m.error == ""
  {
    if m.loading then Spinner
    else if m.error != "" then ErrorPanel(m.error)
    else if m.status.None? then Blank
    else Progress(m.status.value)
  }

  /** A failed refresh replaces the progress with the error panel, though the last status is
      still held; the next successful refresh brings the progress back. */
  lemma FailedRefreshHidesProgress(m: Monitor, message: string, st: TaskStatus)
    requires ShowMonitor(m).Progress? && message != ""
    ensures var failed := Fetch(m, Rejected(ErrorValue(message)));
      ShowMonitor(failed) == ErrorPanel(message) && failed.status == m.status &&
      ShowMonitor(Fetch(failed, Resolved(st))) == Progress(st)
  {
  }

  // ----- The detail page's load and poll -----

  /** The detail page's state: the task from the store, the status, loading and the error. */
  datatype Detail = Detail(task: Option<MigrationTask>, status: Option<TaskStatus>, loading: bool, error: string)

  const InitialDetail: Detail := Detail(None, None, true, "")

  /** `loadTask`: the task cached in the store is shown when present; then the status is
      fetched, and a failure shows the error. Loading ends either way. Without a task id nothing
      is loaded. */
  function InitialLoad(d: Detail, taskId: string, cached: Option<MigrationTask>, outcome: Outcome<TaskStatus>)
    : (r: Detail)
    ensures taskId == "" ==> r == d
    ensures taskId != "" ==> !r.loading && r.task == (if cached.Some? then cached else d.task)
    ensures taskId != "" && outcome.Resolved? ==> r.status == Some(outcome.value) && r.error == ""
    ensures taskId != "" && outcome.Rejected? ==>
      r.status == d.status && r.error == CaughtMessage(outcome.reason, "Failed to load task")
  {
    if taskId == "" then d
    else
      var withTask := if cached.Some? then d.(task := cached) else d;
      match outcome
      case Resolved(st) => withTask.(status := Some(st), error := "", loading := false)
      case Rejected(t) => withTask.(error := CaughtMessage(t, "Failed to load task"), loading := false)
  }

  /** The two-second poll: a success replaces the status, a failure is ignored. Neither touches
      the error. */
  function Poll(d: Detail, outcome: Outcome<TaskStatus>): (r: Detail)
    ensures outcome.Rejected? ==> r == d
    ensures outcome.Resolved? ==> r == d.(status := Some(outcome.value))
  {
    if outcome.Resolved? then d.(status := Some(outcome.value)) else d
  }

  function PollAll(d: Detail, outcomes: seq<Outcome<TaskStatus>>): Detail
    decreases |outcomes|
  {
    if |outcomes| == 0 then d else PollAll(Poll(d, outcomes[0]), outcomes[1..])
  }

  /** Polling shows the last status a poll fetched and leaves everything else, including an
      error from the first load, exactly as it was. */
  lemma {:induction false} PollAllKeepsError(d: Detail, outcomes: seq<Outcome<TaskStatus>>)
    ensures PollAll(d, outcomes) == d.(status := LastResolved(outcomes, d.status))
    decreases |outcomes|
  {
    if |outcomes| > 0 {
      var rest := outcomes[1..];
      assert outcomes == [outcomes[0]] + rest;
      LastResolvedCons(outcomes[0], rest, d.status);
      PollAllKeepsError(Poll(d, outcomes[0]), rest);
    }
  }

  /** Unlike the monitor step, the detail page never recovers from a failed first load: later
      successful polls fetch a status, but the error stays and is what the page shows. */
  lemma FailedLoadSticks(taskId: string, message: string, polls: seq<Outcome<TaskStatus>>)
    requires taskId != "" && message != ""
    ensures var d := PollAll(InitialLoad(InitialDetail, taskId, None, Rejected(ErrorValue(message))), polls);
      d.error == message && !d.loading
  {
    PollAllKeepsError(InitialLoad(InitialDetail, taskId, None, Rejected(ErrorValue(message))), polls);
  }
}
