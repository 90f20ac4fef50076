/** The recovery hook (webui/src/hooks/useTaskRecovery.ts): on mount, a persisted migration in
    progress sends the browser back to its monitor page. */
module TaskRecovery {
  import opened Wrappers
  import opened Text
  import opened Types

  /** The part of the persisted store the hook reads, and the location it runs at. */
  datatype MountContext = MountContext(currentTaskId: string, currentStep: WorkflowStep, pathname: string)

  /** A client-side navigation; `replace` overwrites the current history entry. */
  datatype Navigation = Navigation(to: string, replace: bool)

  const MigrationSegment: string := "/migration/"

  /** The monitor page of a task. */
  function RecoveryTarget(taskId: string): (path: string)
    ensures StartsWith(path, "/workflow") && path[|"/workflow"|..] == MigrationSegment + taskId
  {
    "/workflow" + MigrationSegment + taskId
  }

  /** The effect run on mount: redirect iff a task id is set, the step is the migration step and the
      location is not already a migration page (of any task). */
  function OnMount(c: MountContext): (nav: Option<Navigation>)
    ensures nav.Some? <==> c.currentTaskId != "" && c.currentStep == Migration && !Contains(c.pathname, MigrationSegment)
    ensures nav.Some? ==> nav.value.replace && nav.value.to == "/workflow/migration/" + c.currentTaskId
  {
    if c.currentTaskId != "" && c.currentStep == Migration && !Contains(c.pathname, MigrationSegment) then
      Some(Navigation(RecoveryTarget(c.currentTaskId), true))
    else None
  }

  /** The target page is itself a migration page, so the hook never redirects away from it; the
      same holds for the page of any other task. */
  lemma NoRedirectOnMigrationPage(taskId: string, shownTask: string, step: WorkflowStep)
    ensures OnMount(MountContext(taskId, step, RecoveryTarget(shownTask))).None?
  {
    var p := RecoveryTarget(shownTask);
    assert p[9..][..|MigrationSegment|] == MigrationSegment;
    ContainsAt(p, 9, MigrationSegment);
  }

  /** The hook's dependency list is empty: over a sequence of renders it navigates at most once,
      and only as the first render's context decides. */
  function Navigations(renders: seq<MountContext>): (navs: seq<Navigation>)
    ensures |navs| <= 1
    ensures |navs| == 1 <==> |renders| > 0 && OnMount(renders[0]).Some?
    ensures |navs| == 1 ==> navs[0] == OnMount(renders[0]).value
  {
    if |renders| == 0 then []
    else
      match OnMount(renders[0])
      case Some(n) => [n]
      case None => []
  }

  /** Later changes of the store or the location never cause a redirect. */
  lemma LaterRendersIgnored(first: MountContext, later: seq<MountContext>, other: seq<MountContext>)
    ensures Navigations([first] + later) == Navigations([first] + other)
  {
  }
}
