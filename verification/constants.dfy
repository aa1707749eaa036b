/**
 * taskz/constants.py: the status workflow and the name of the
 * administrative group, with the two pieces of Python sequence behaviour the
 * rest of the model relies on (negative indexing and `tuple.index`).
 */
module Constants {
  import opened Wrappers

  /** Python indexing `s[i]`: a negative index counts from the end. */
  function PyIndex(s: seq<string>, i: int): (r: string)
    requires -|s| <= i < |s|
  {
    if i < 0 then s[|s| + i] else s[i]
  }

  /** Python `s.index(x)`: the first position holding `x`; None where Python raises ValueError. */
  function IndexOf(s: seq<string>, x: string): (r: Option<nat>)
    ensures r.None? <==> x !in s
    ensures r.Some? ==> r.value < |s| && s[r.value] == x && x !in s[..r.value]
  {
    if |s| == 0 then None
    else if s[0] == x then Some(0)
    else match IndexOf(s[1..], x)
      case None => None
      case Some(k) =>
        assert s[..k + 1] == [s[0]] + s[1..][..k];
        Some(k + 1)
  }

  /** `model_utils.Choices(*values)`: each value is both the stored value and its label. */
  function ChoicesOf(values: seq<string>): (r: seq<(string, string)>)
  {
    seq(|values|, i requires 0 <= i < |values| => (values[i], values[i]))
  }

  /** The workflow, in order (`STATUSES`). */
  const Statuses: seq<string> := ["New", "In progress", "Completed", "Archived"]

  /** `TASK_STATUS_CHOICES`: the choices declared on the status column. */
  const TaskStatusChoices: seq<(string, string)> := ChoicesOf(Statuses)

  /** `NEW_TASK_STATUS = STATUSES[0]` */
  const NewTaskStatus: string := PyIndex(Statuses, 0)

  /** `LAST_TASK_STATUS = STATUSES[-1]` */
  const LastTaskStatus: string := PyIndex(Statuses, -1)

  /** `ADMIN_GROUP`: members of this group may delete comments. */
  const AdminGroup: string := "ADMIN"

  /** There are exactly four statuses, in the fixed order of the workflow. */
  lemma WorkflowOrder()
    ensures Statuses == ["New", "In progress", "Completed", "Archived"]
    ensures |Statuses| == 4
  {
  }

  /** No status appears twice, so each has exactly one position. */
  lemma StatusesDistinct()
    ensures forall i, j :: 0 <= i < j < |Statuses| ==> Statuses[i] != Statuses[j]
  {
  }

  /** `STATUSES.index` finds every status at its own position. */
  lemma PositionOf(k: nat)
    requires k < |Statuses|
    ensures IndexOf(Statuses, Statuses[k]) == Some(k)
  {
    StatusesDistinct();
    var r := IndexOf(Statuses, Statuses[k]);
    assert Statuses[k] in Statuses;
    assert r.Some? && Statuses[r.value] == Statuses[k];
  }

  /**
   * The first and last statuses are the workflow's ends, and they differ, so
   * from every listed status at least one direction of travel is open.
   */
  lemma WorkflowEnds()
    ensures NewTaskStatus == Statuses[0] && NewTaskStatus == "New"
    ensures LastTaskStatus == Statuses[|Statuses| - 1] && LastTaskStatus == "Archived"
    ensures NewTaskStatus != LastTaskStatus
  {
  }

  /** The declared choices store exactly the statuses, in order, each labelled by itself. */
  lemma ChoicesAreStatuses()
    ensures |TaskStatusChoices| == |Statuses|
    ensures forall i :: 0 <= i < |Statuses| ==> TaskStatusChoices[i].0 == Statuses[i]
    ensures forall i :: 0 <= i < |Statuses| ==> TaskStatusChoices[i].1 == Statuses[i]
  {
  }

  /** The administrative group is named `ADMIN`. */
  lemma AdminGroupName()
    ensures AdminGroup == "ADMIN"
  {
  }
}
