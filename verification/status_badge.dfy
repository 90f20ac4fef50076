/** The status badge (webui/src/components/migration/TaskStatusBadge.tsx): the label, look and
    extra classes shown for a task's status. */
module StatusBadge {
  import opened Text
  import TaskModel

  datatype Variant = Default | Secondary | Destructive | Outline

  datatype BadgeConfig = BadgeConfig(caption: string, variant: Variant, className: string)

  /** The statuses the badge knows, in lower case. */
  const Known: set<string> := {"completed", "running", "paused", "failed", "cancelled", "pending"}

  /** `getStatusConfig`: the status is compared in lower case; the six known statuses get a
      fixed label and look, and anything else is shown as given, outlined. */
  function GetStatusConfig(status: string): (c: BadgeConfig)
    ensures ToLower(status) !in Known ==> c == BadgeConfig(status, Outline, "")
    ensures c.variant == Destructive <==> ToLower(status) == "failed"
    ensures c.variant == Secondary <==> ToLower(status) == "paused"
    ensures c.variant == Default <==> ToLower(status) in {"completed", "running"}
  {
    var key := ToLower(status);
    if key == "completed" then BadgeConfig("Completed", Default, "bg-green-600 hover:bg-green-700")
    else if key == "running" then BadgeConfig("Running", Default, "bg-blue-600 hover:bg-blue-700")
    else if key == "paused" then BadgeConfig("Paused", Secondary, "bg-yellow-600 hover:bg-yellow-700 text-white")
    else if key == "failed" then BadgeConfig("Failed", Destructive, "")
    else if key == "cancelled" then BadgeConfig("Cancelled", Outline, "")
    else if key == "pending" then BadgeConfig("Pending", Outline, "")
    else BadgeConfig(status, Outline, "")
  }

  lemma LowerCharIdempotent(c: char)
    ensures LowerChar(LowerChar(c)) == LowerChar(c)
  {
  }

  lemma {:induction false} ToLowerIdempotent(s: string)
    ensures ToLower(ToLower(s)) == ToLower(s)
  {
    var t := ToLower(s);
    forall i | 0 <= i < |s|
      ensures ToLower(t)[i] == t[i]
    {
      LowerCharIdempotent(s[i]);
    }
  }

  /** A known status in any mix of cases is shown exactly as its lower-case spelling. */
  lemma CaseInsensitive(a: string, b: string)
    requires ToLower(a) == ToLower(b) && ToLower(a) in Known
    ensures GetStatusConfig(a) == GetStatusConfig(b)
  {
  }

  /** The caption always names the status it was given: up to case, caption and status agree. */
  lemma CaptionNamesStatus(status: string)
    ensures ToLower(GetStatusConfig(status).caption) == ToLower(status)
  {
    var key := ToLower(status);
    ToLowerIdempotent(status);
    if key in Known {
      var caption := GetStatusConfig(status).caption;
      assert |ToLower(caption)| == |key|;
      forall i | 0 <= i < |key|
        ensures ToLower(caption)[i] == key[i]
      {
        assert key[i] == LowerChar(caption[i]);
      }
    }
  }

  /** Every status the server uses gets a badge; only `verifying` is outside the known six, so
      it is shown in its own words, outlined. */
  lemma ServerStatusesCovered(status: string)
    requires status in TaskModel.AllStatuses
    ensures status == TaskModel.StatusVerifying <==> status !in Known
    ensures status == TaskModel.StatusVerifying ==> GetStatusConfig(status) == BadgeConfig("verifying", Outline, "")
  {
    assert ToLower(status) == status by {
      forall i | 0 <= i < |status|
        ensures LowerChar(status[i]) == status[i]
      {
      }
    }
  }
}
