/**
 * taskz/models.py: a task's status ledger and the linear workflow over it,
 * the post-save hook that seeds the ledger, the assignment hook that queues
 * one notification per newly assigned user, and the comment table.
 *
 * The ledger is the `status` column of a task's TaskStatus rows, oldest
 * first: the newest entry is the last element. Sequence order stands in
 * for the `created` timestamps.
 */
module Models {
  import opened Wrappers
  import opened Constants

  type Ledger = seq<string>

  /** How `Task._move` fails. */
  datatype MoveError =
    | TaskStatusException            // the current status is the limit
    | UnknownStatus(status: string)  // `STATUSES.index` raises ValueError

  /** `Task.current_status`: the status of the newest ledger entry. */
  function Current(ledger: Ledger): (r: string)
    requires |ledger| > 0
    ensures ledger == ledger[..|ledger| - 1] + [r]
  {
    ledger[|ledger| - 1]
  }

  /** Whatever entry was appended last is the current status. */
  lemma CurrentIsNewest(ledger: Ledger, entry: string)
    ensures Current(ledger + [entry]) == entry
  {
  }

  /** The two ways `_move` is called: `forward` and `backward`. */
  predicate MoveArgs(direction: int, limit: string)
  {
    || (direction == 1 && limit == LastTaskStatus)
    || (direction == -1 && limit == NewTaskStatus)
  }

  /**
   * `Task._move(direction, limit)` on the ledger: at the limit it raises
   * TaskStatusException; otherwise it appends the neighbour of the current
   * status, `direction` steps along `STATUSES`.
   */
  function MoveLedger(ledger: Ledger, direction: int, limit: string): (r: Result<Ledger, MoveError>)
    requires |ledger| > 0
    requires MoveArgs(direction, limit)
    ensures r == Failure(TaskStatusException) <==> Current(ledger) == limit
    ensures r == Failure(UnknownStatus(Current(ledger))) <==> Current(ledger) != limit && Current(ledger) !in Statuses
    ensures r.Failure? ==> r.error.UnknownStatus? ==> r.error.status == Current(ledger)
    ensures r.Success? ==>
      && |r.value| == |ledger| + 1
      && r.value[..|ledger|] == ledger
      && IndexOf(Statuses, Current(ledger)).Some?
      && IndexOf(Statuses, Current(r.value)) == Some(IndexOf(Statuses, Current(ledger)).value + direction)
  {
    var current := Current(ledger);
    if current == limit then
      Failure(TaskStatusException)
    else
      match IndexOf(Statuses, current)
      case None => Failure(UnknownStatus(current))
      case Some(k) =>
        var target := PyIndex(Statuses, k + direction);
        PositionOf(k + direction);
        assert (ledger + [target])[..|ledger|] == ledger;
        Success(ledger + [target])
  }

  /** `Task.forward`. */
  function ForwardLedger(ledger: Ledger): (r: Result<Ledger, MoveError>)
    requires |ledger| > 0
    ensures r == Failure(TaskStatusException) <==> Current(ledger) == "Archived"
    ensures r == Failure(UnknownStatus(Current(ledger))) <==> Current(ledger) !in Statuses
    ensures r.Success? <==> Current(ledger) in Statuses && Current(ledger) != "Archived"
    ensures r.Success? ==>
      && |r.value| == |ledger| + 1
      && IndexOf(Statuses, Current(ledger)).value + 1 < |Statuses|
      && r.value == ledger + [Statuses[IndexOf(Statuses, Current(ledger)).value + 1]]
  {
    WorkflowEnds();
    var r := MoveLedger(ledger, 1, LastTaskStatus);
    if r.Success? then
      var k := IndexOf(Statuses, Current(ledger)).value;
      MoveAppendsNeighbour(ledger, 1, LastTaskStatus, k);
      r
    else
      r
  }

  /** `Task.backward`. */
  function BackwardLedger(ledger: Ledger): (r: Result<Ledger, MoveError>)
    requires |ledger| > 0
    ensures r == Failure(TaskStatusException) <==> Current(ledger) == "New"
    ensures r == Failure(UnknownStatus(Current(ledger))) <==> Current(ledger) !in Statuses
    ensures r.Success? <==> Current(ledger) in Statuses && Current(ledger) != "New"
    ensures r.Success? ==>
      && |r.value| == |ledger| + 1
      && 0 < IndexOf(Statuses, Current(ledger)).value
      && r.value == ledger + [Statuses[IndexOf(Statuses, Current(ledger)).value - 1]]
  {
    WorkflowEnds();
    var r := MoveLedger(ledger, -1, NewTaskStatus);
    if r.Success? then
      var k := IndexOf(Statuses, Current(ledger)).value;
      MoveAppendsNeighbour(ledger, -1, NewTaskStatus, k);
      r
    else
      r
  }

  /** A successful move appends exactly the workflow neighbour of the current status. */
  lemma MoveAppendsNeighbour(ledger: Ledger, direction: int, limit: string, k: nat)
    requires |ledger| > 0 && MoveArgs(direction, limit)
    requires k < |Statuses| && Current(ledger) == Statuses[k] && Current(ledger) != limit
    ensures 0 <= k + direction < |Statuses|
    ensures MoveLedger(ledger, direction, limit) == Success(ledger + [Statuses[k + direction]])
  {
    PositionOf(k);
  }

  /** `forward` then `backward` restores the current status; the ledger keeps both entries. */
  lemma ForwardThenBackward(ledger: Ledger)
    requires |ledger| > 0
    ensures ForwardLedger(ledger).Success? ==>
      BackwardLedger(ForwardLedger(ledger).value) == Success(ForwardLedger(ledger).value + [Current(ledger)])
  {
    if ForwardLedger(ledger).Success? {
      var k := IndexOf(Statuses, Current(ledger)).value;
      MoveAppendsNeighbour(ledger, 1, LastTaskStatus, k);
      var l1 := ledger + [Statuses[k + 1]];
      MoveAppendsNeighbour(l1, -1, NewTaskStatus, k + 1);
    }
  }

  /** `backward` then `forward` restores the current status; the ledger keeps both entries. */
  lemma BackwardThenForward(ledger: Ledger)
    requires |ledger| > 0
    ensures BackwardLedger(ledger).Success? ==>
      ForwardLedger(BackwardLedger(ledger).value) == Success(BackwardLedger(ledger).value + [Current(ledger)])
  {
    if BackwardLedger(ledger).Success? {
      var k := IndexOf(Statuses, Current(ledger)).value;
      MoveAppendsNeighbour(ledger, -1, NewTaskStatus, k);
      var l1 := ledger + [Statuses[k - 1]];
      MoveAppendsNeighbour(l1, 1, LastTaskStatus, k - 1);
    }
  }

  /** From every listed status at least one of `forward` and `backward` succeeds. */
  lemma SomeMoveIsLegal(ledger: Ledger)
    requires |ledger| > 0 && Current(ledger) in Statuses
    ensures ForwardLedger(ledger).Success? || BackwardLedger(ledger).Success?
  {
    WorkflowEnds();
  }

  /** `forward` called `k` times in a row; the first exception stops the run. */
  function ForwardTimes(ledger: Ledger, k: nat): (r: Result<Ledger, MoveError>)
    requires |ledger| > 0
    ensures r.Success? ==> |r.value| == |ledger| + k && r.value[..|ledger|] == ledger
  {
    if k == 0 then Success(ledger)
    else
      match ForwardTimes(ledger, k - 1)
      case Failure(e) => Failure(e)
      case Success(l) =>
        var r := ForwardLedger(l);
        assert r.Success? ==> r.value[..|ledger|] == r.value[..|l|][..|ledger|];
        r
  }

  /**
   * From a fresh ledger, `k` forwards (k <= 3) record the workflow's first
   * `k + 1` statuses, so the current status is `STATUSES[k]`.
   */
  lemma {:induction false} ForwardsFromNew(k: nat)
    requires k < |Statuses|
    ensures ForwardTimes([NewTaskStatus], k) == Success(Statuses[..k + 1])
    ensures Current(Statuses[..k + 1]) == Statuses[k]
  {
    if k == 0 {
      WorkflowEnds();
      assert Statuses[..1] == [NewTaskStatus];
    } else {
      ForwardsFromNew(k - 1);
      ForwardAlongWorkflow(k);
      ForwardTimesStep([NewTaskStatus], k - 1, Statuses[..k], Statuses[..k + 1]);
    }
  }

  /** One more forward after a run of `k` forwards that ended in `l`. */
  lemma ForwardTimesStep(ledger: Ledger, k: nat, l: Ledger, next: Ledger)
    requires |ledger| > 0 && ForwardTimes(ledger, k) == Success(l)
    requires |l| > 0 && ForwardLedger(l) == Success(next)
    ensures ForwardTimes(ledger, k + 1) == Success(next)
  {
  }

  /** Forward from the workflow's first `k` statuses records the next one. */
  lemma ForwardAlongWorkflow(k: nat)
    requires 0 < k < |Statuses|
    ensures ForwardLedger(Statuses[..k]) == Success(Statuses[..k + 1])
  {
    var done := Statuses[..k];
    assert Current(done) == Statuses[k - 1];
    assert Statuses[k - 1] != LastTaskStatus by {
      StatusesDistinct();
      WorkflowEnds();
    }
    MoveAppendsNeighbour(done, 1, LastTaskStatus, k - 1);
    assert ForwardLedger(done) == MoveLedger(done, 1, LastTaskStatus);
    assert done + [Statuses[k]] == Statuses[..k + 1];
  }

  /** A fourth `forward` from a fresh ledger raises TaskStatusException at Archived. */
  lemma ForwardPastArchived()
    ensures ForwardTimes([NewTaskStatus], |Statuses|) == Failure(TaskStatusException)
  {
    ForwardsFromNew(|Statuses| - 1);
    WorkflowEnds();
  }

  /** The ledger after the post-save hook `save_task`: seeded with one `New` entry when empty. */
  function SaveHook(ledger: Ledger): (r: Ledger)
    ensures |r| > 0
    ensures |ledger| > 0 ==> r == ledger
    ensures ledger == [] ==> r == ["New"]
  {
    WorkflowEnds();
    if |ledger| == 0 then [NewTaskStatus] else ledger
  }

  /** `save()` called `n` times in a row; each save runs the hook. */
  function SaveTimes(ledger: Ledger, n: nat): (r: Ledger)
    decreases n
  {
    if n == 0 then ledger else SaveTimes(SaveHook(ledger), n - 1)
  }

  /** Saving a task that already has a ledger, any number of times, leaves the ledger as it was. */
  lemma {:induction false} ResaveKeepsLedger(ledger: Ledger, n: nat)
    requires |ledger| > 0
    ensures SaveTimes(ledger, n) == ledger
  {
    if n > 0 {
      ResaveKeepsLedger(SaveHook(ledger), n - 1);
    }
  }

  /** A new task saved once or more has exactly one ledger entry, `New`. */
  lemma CreatedTaskLedger(n: nat)
    ensures SaveTimes([], n + 1) == [NewTaskStatus]
    ensures Current(SaveTimes([], n + 1)) == "New"
  {
    ResaveKeepsLedger([NewTaskStatus], n);
    WorkflowEnds();
  }

  /** One queued `notify_user.delay(task, user_id)` call. */
  datatype Job = Job(task: nat, user: nat)

  /** The notification queue: jobs in the order they were queued. */
  class Outbox {
    var jobs: seq<Job>

    constructor ()
      ensures jobs == []
    {
      jobs := [];
    }

    /** `notify_user.delay(task, user_id)` */
    method Delay(job: Job)
      modifies this
      ensures jobs == old(jobs) + [job]
    {
      jobs := jobs + [job];
    }
  }

  /**
   * `after` extends `before` with exactly one job `(task, u)` for each `u` in
   * `ids`, in some order, and nothing else.
   */
  ghost predicate NotifiesEach(before: seq<Job>, after: seq<Job>, task: nat, ids: set<nat>)
  {
    |before| <= |after| && after[..|before|] == before && OneJobEach(after[|before|..], task, ids)
  }

  /** `added` holds exactly one job `(task, u)` for each `u` in `ids`, in some order, and nothing else. */
  ghost predicate OneJobEach(added: seq<Job>, task: nat, ids: set<nat>)
  {
    && |added| == |ids|
    && (forall k :: 0 <= k < |added| ==> added[k].task == task && added[k].user in ids)
    && (forall i, j :: 0 <= i < j < |added| ==> added[i] != added[j])
    && (forall u :: u in ids ==> Job(task, u) in added)
  }

  /** Queuing one more job for a new id keeps one job per id. */
  lemma OneJobEachExtend(added: seq<Job>, task: nat, ids: set<nat>, u: nat)
    requires OneJobEach(added, task, ids) && u !in ids
    ensures OneJobEach(added + [Job(task, u)], task, ids + {u})
  {
    assert |ids + {u}| == |ids| + 1;
    var added' := added + [Job(task, u)];
    forall v | v in ids + {u}
      ensures Job(task, v) in added'
    {
      if v != u {
        assert Job(task, v) in added;
      }
    }
  }

  /** Appending one job per id to a queue notifies each id. */
  lemma AppendedJobs(before: seq<Job>, added: seq<Job>, task: nat, ids: set<nat>)
    requires OneJobEach(added, task, ids)
    ensures NotifiesEach(before, before + added, task, ids)
  {
    assert (before + added)[|before|..] == added;
    assert (before + added)[..|before|] == before;
  }

  /** The actions the framework's many-to-many signal reports. */
  datatype M2MAction = PreAdd | PostAdd | PreRemove | PostRemove | PreClear | PostClear

  /** A task: its own columns, its assignee ids, and its status ledger. */
  class Task {
    const id: nat
    var title: string
    var about: string
    var assignees: set<nat>
    var statuses: Ledger

    /** A task row before its first save: column defaults, no assignees, no ledger entries. */
    constructor (id: nat, title: Option<string>, about: Option<string>)
      ensures this.id == id
      ensures this.title == (if title.Some? then title.value else "Task")
      ensures this.about == (if about.Some? then about.value else "")
      ensures assignees == {} && statuses == []
    {
      this.id := id;
      this.title := if title.Some? then title.value else "Task";
      this.about := if about.Some? then about.value else "";
      assignees := {};
      statuses := [];
    }

    /** `current_status` */
    function CurrentStatus(): (r: string)
      reads this
      requires |statuses| > 0
      ensures r == statuses[|statuses| - 1] && r in statuses
    {
      Current(statuses)
    }

    /**
     * `_move(direction, limit)`: appends one ledger entry, or reports the
     * exception it raises and appends nothing.
     */
    method Move(direction: int, limit: string) returns (raised: Option<MoveError>)
      requires |statuses| > 0 && MoveArgs(direction, limit)
      modifies `statuses
      ensures MoveLedger(old(statuses), direction, limit).Success? ==>
        statuses == MoveLedger(old(statuses), direction, limit).value && raised == None
      ensures MoveLedger(old(statuses), direction, limit).Failure? ==>
        statuses == old(statuses) && raised == Some(MoveLedger(old(statuses), direction, limit).error)
    {
      var current := CurrentStatus();
      if current == limit {
        raised := Some(TaskStatusException);
      } else {
        var k := IndexOf(Statuses, current);
        if k.None? {
          raised := Some(UnknownStatus(current));
        } else {
          statuses := statuses + [PyIndex(Statuses, k.value + direction)];
          raised := None;
        }
      }
    }

    /** `forward` */
    method Forward() returns (raised: Option<MoveError>)
      requires |statuses| > 0
      modifies `statuses
      ensures ForwardLedger(old(statuses)).Success? ==>
        statuses == ForwardLedger(old(statuses)).value && raised == None
      ensures ForwardLedger(old(statuses)).Failure? ==>
        statuses == old(statuses) && raised == Some(ForwardLedger(old(statuses)).error)
    {
      raised := Move(1, LastTaskStatus);
    }

    /** `backward` */
    method Backward() returns (raised: Option<MoveError>)
      requires |statuses| > 0
      modifies `statuses
      ensures BackwardLedger(old(statuses)).Success? ==>
        statuses == BackwardLedger(old(statuses)).value && raised == None
      ensures BackwardLedger(old(statuses)).Failure? ==>
        statuses == old(statuses) && raised == Some(BackwardLedger(old(statuses)).error)
    {
      raised := Move(-1, NewTaskStatus);
    }

    /**
     * The framework's `assignees.add(user)`: signals `pre_add` and `post_add`
     * with the ids not already assigned, adding them in between.
     */
    method AddAssignee(user: nat, outbox: Outbox)
      modifies `assignees, outbox
      ensures assignees == old(assignees) + {user}
      ensures user in old(assignees) ==> outbox.jobs == old(outbox.jobs)
      ensures user !in old(assignees) ==> outbox.jobs == old(outbox.jobs) + [Job(id, user)]
    {
      var added := {user} - assignees;
      UserAssigned(this, PreAdd, added, outbox);
      assignees := assignees + added;
      UserAssigned(this, PostAdd, added, outbox);
      if user !in old(assignees) {
        assert added == {user};
        var j := outbox.jobs[|old(outbox.jobs)|];
        assert j.user in added;
        assert outbox.jobs == old(outbox.jobs) + [j];
      }
    }
  }

  /** The post-save hook `save_task`: seeds an empty ledger with one `New` entry. */
  method SaveTask(instance: Task)
    modifies instance`statuses
    ensures instance.statuses == SaveHook(old(instance.statuses))
  {
    if |instance.statuses| == 0 {
      instance.statuses := instance.statuses + [NewTaskStatus];
    }
  }

  /** Creating a task: the row is written, then the post-save hook runs. */
  method CreateTask(id: nat, title: Option<string>, about: Option<string>) returns (task: Task)
    ensures fresh(task) && task.id == id && task.assignees == {}
    ensures task.title == (if title.Some? then title.value else "Task")
    ensures task.about == (if about.Some? then about.value else "")
    ensures task.statuses == [NewTaskStatus]
  {
    task := new Task(id, title, about);
    SaveTask(task);
  }

  /**
   * The many-to-many hook `user_assigned`: on `post_add`, queues one
   * notification for each id in `pkSet`; every other action queues nothing.
   */
  method UserAssigned(instance: Task, action: M2MAction, pkSet: set<nat>, outbox: Outbox)
    modifies outbox
    ensures action != PostAdd ==> outbox.jobs == old(outbox.jobs)
    ensures action == PostAdd ==> NotifiesEach(old(outbox.jobs), outbox.jobs, instance.id, pkSet)
  {
    if action == PostAdd {
      var remaining := pkSet;
      ghost var sent: set<nat> := {};
      ghost var added: seq<Job> := [];
      while remaining != {}
        invariant remaining <= pkSet && sent == pkSet - remaining
        invariant outbox.jobs == old(outbox.jobs) + added
        invariant OneJobEach(added, instance.id, sent)
        decreases |remaining|
      {
        var u :| u in remaining;
        outbox.Delay(Job(instance.id, u));
        OneJobEachExtend(added, instance.id, sent, u);
        added := added + [Job(instance.id, u)];
        remaining := remaining - {u};
        sent := sent + {u};
      }
      AppendedJobs(old(outbox.jobs), added, instance.id, pkSet);
    }
  }

  /** A stored `TaskComment` row. */
  datatype Comment = Comment(id: nat, user: nat, task: nat, text: string)

  /** The TaskComment table, with its auto-increment counter. */
  class CommentStore {
    var comments: map<nat, Comment>
    var nextId: nat

    ghost predicate Valid()
      reads this
    {
      forall k :: k in comments ==> k < nextId && comments[k].id == k
    }

    constructor ()
      ensures Valid() && comments == map[]
    {
      comments := map[];
      nextId := 0;
    }

    /** `comment.save()` for a new row: it takes the next id. */
    method Insert(user: nat, task: nat, text: string) returns (c: Comment)
      requires Valid()
      modifies this
      ensures Valid()
      ensures c == Comment(old(nextId), user, task, text) && c.id !in old(comments)
      ensures comments == old(comments)[c.id := c]
    {
      c := Comment(nextId, user, task, text);
      comments := comments[nextId := c];
      nextId := nextId + 1;
    }

    /** `comment.delete()` */
    method Delete(id: nat)
      requires Valid() && id in comments
      modifies `comments
      ensures Valid()
      ensures comments == old(comments) - {id}
    {
      comments := comments - {id};
    }
  }
}
