/**
 * taskz/views.py: the request handlers that carry decisions of their own,
 * each a method over the stores that answers with a status code and a body.
 * Authentication is the framework's: every handler is reached with a known
 * requesting user.
 */
module Views {
  import opened Wrappers
  import opened Constants
  import opened Models

  /** A response body: nothing, a task as (id, current status), or a comment. */
  datatype Body = Empty | TaskBody(id: nat, currentStatus: string) | CommentBody(comment: Comment)

  datatype Response = Response(status: nat, body: Body)

  /** Saved tasks, by primary key: each has a ledger entry, courtesy of the post-save hook. */
  ghost predicate TaskStore(tasks: map<nat, Task>)
    reads tasks.Values
  {
    forall pk :: pk in tasks ==> tasks[pk].id == pk && |tasks[pk].statuses| > 0
  }

  /** `user.groups.filter(name=ADMIN_GROUP).exists()` */
  predicate IsAdmin(groups: set<string>): (b: bool)
    ensures b <==> "ADMIN" in groups
  {
    AdminGroupName();
    AdminGroup in groups
  }

  /** The response to a transition request whose ledger move had outcome `r`. */
  function TransitionResponse(pk: nat, r: Result<Ledger, MoveError>): (resp: Response)
    requires r.Success? ==> |r.value| > 0
    ensures resp.status == 200 <==> r.Success?
    ensures resp.status == 400 <==> r == Failure(TaskStatusException)
    ensures r.Success? ==> resp.body == TaskBody(pk, Current(r.value))
    ensures r.Failure? ==> resp.body == Empty
    ensures r.Failure? && r.error.UnknownStatus? ==> resp == Response(500, Empty)
  {
    match r
    case Success(l) => Response(200, TaskBody(pk, Current(l)))
    case Failure(TaskStatusException) => Response(400, Empty)
    case Failure(UnknownStatus(_)) => Response(500, Empty)
  }

  /**
   * `TaskViewSet.forward`: 404 for an unknown task; otherwise the task's
   * `forward`, answered with the task, or 400 when it raises
   * TaskStatusException. An uncaught ValueError is the framework's 500.
   */
  method TaskForward(tasks: map<nat, Task>, pk: nat) returns (resp: Response)
    requires TaskStore(tasks)
    modifies if pk in tasks then {tasks[pk]} else {}
    ensures pk !in tasks ==> resp == Response(404, Empty)
    ensures pk in tasks ==>
      && resp == TransitionResponse(pk, ForwardLedger(old(tasks[pk].statuses)))
      && tasks[pk].statuses == (match ForwardLedger(old(tasks[pk].statuses))
                                case Success(l) => l
                                case Failure(_) => old(tasks[pk].statuses))
      && tasks[pk].assignees == old(tasks[pk].assignees)
      && tasks[pk].title == old(tasks[pk].title) && tasks[pk].about == old(tasks[pk].about)
  {
    if pk !in tasks {
      return Response(404, Empty);
    }
    var task := tasks[pk];
    var raised := task.Forward();
    if raised.None? {
      resp := Response(200, TaskBody(task.id, task.CurrentStatus()));
    } else if raised.value == TaskStatusException {
      resp := Response(400, Empty);
    } else {
      resp := Response(500, Empty);
    }
  }

  /** `TaskViewSet.backward`: as `TaskForward`, one step the other way. */
  method TaskBackward(tasks: map<nat, Task>, pk: nat) returns (resp: Response)
    requires TaskStore(tasks)
    modifies if pk in tasks then {tasks[pk]} else {}
    ensures pk !in tasks ==> resp == Response(404, Empty)
    ensures pk in tasks ==>
      && resp == TransitionResponse(pk, BackwardLedger(old(tasks[pk].statuses)))
      && tasks[pk].statuses == (match BackwardLedger(old(tasks[pk].statuses))
                                case Success(l) => l
                                case Failure(_) => old(tasks[pk].statuses))
      && tasks[pk].assignees == old(tasks[pk].assignees)
      && tasks[pk].title == old(tasks[pk].title) && tasks[pk].about == old(tasks[pk].about)
  {
    if pk !in tasks {
      return Response(404, Empty);
    }
    var task := tasks[pk];
    var raised := task.Backward();
    if raised.None? {
      resp := Response(200, TaskBody(task.id, task.CurrentStatus()));
    } else if raised.value == TaskStatusException {
      resp := Response(400, Empty);
    } else {
      resp := Response(500, Empty);
    }
  }

  /**
   * `TaskViewSet.assign`: 404 when the task or the user named in the body
   * does not exist; otherwise adds the user to the assignees and answers 200,
   * whether or not the user was assigned already. Only a new assignee is
   * notified.
   */
  method TaskAssign(tasks: map<nat, Task>, users: map<nat, set<string>>, pk: nat, user: Option<nat>, outbox: Outbox)
    returns (resp: Response)
    requires TaskStore(tasks)
    modifies (if pk in tasks then {tasks[pk]} else {}), outbox
    ensures pk !in tasks || user.None? || user.value !in users ==>
      resp == Response(404, Empty) && outbox.jobs == old(outbox.jobs)
    ensures pk in tasks && (user.None? || user.value !in users) ==>
      tasks[pk].assignees == old(tasks[pk].assignees)
    ensures pk in tasks && user.Some? && user.value in users ==>
      && resp == Response(200, Empty)
      && tasks[pk].assignees == old(tasks[pk].assignees) + {user.value}
      && outbox.jobs == old(outbox.jobs) + (if user.value in old(tasks[pk].assignees) then [] else [Job(pk, user.value)])
    ensures pk in tasks ==>
      && tasks[pk].statuses == old(tasks[pk].statuses)
      && tasks[pk].title == old(tasks[pk].title) && tasks[pk].about == old(tasks[pk].about)
  {
    if pk !in tasks {
      return Response(404, Empty);
    }
    var task := tasks[pk];
    if user.None? || user.value !in users {
      return Response(404, Empty);
    }
    task.AddAssignee(user.value, outbox);
    resp := Response(200, Empty);
  }

  /**
   * `CommentViewSet.create`: stores a comment whose author is the requesting
   * user; the `user` named in the body is ignored. A missing text or a task
   * that does not exist is refused by the database (an uncaught
   * IntegrityError, the framework's 500) and nothing is stored.
   */
  method CommentCreate(store: CommentStore, tasks: map<nat, Task>, requester: nat,
                       bodyUser: Option<nat>, task: Option<nat>, text: Option<string>)
    returns (resp: Response)
    requires store.Valid()
    modifies store
    ensures store.Valid()
    ensures task.None? || task.value !in tasks || text.None? ==>
      resp == Response(500, Empty) && store.comments == old(store.comments)
    ensures task.Some? && task.value in tasks && text.Some? ==>
      && resp.status == 200 && resp.body.CommentBody?
      && resp.body.comment == Comment(resp.body.comment.id, requester, task.value, text.value)
      && resp.body.comment.id !in old(store.comments)
      && store.comments == old(store.comments)[resp.body.comment.id := resp.body.comment]
  {
    if task.None? || task.value !in tasks || text.None? {
      return Response(500, Empty);
    }
    var c := store.Insert(requester, task.value, text.value);
    resp := Response(200, CommentBody(c));
  }

  /**
   * `CommentViewSet.destroy`: a requester outside the ADMIN group gets 400
   * and nothing is deleted (the comment is not even looked up); an ADMIN
   * member deletes the comment and gets 204, or 404 if it does not exist.
   */
  method CommentDestroy(store: CommentStore, users: map<nat, set<string>>, requester: nat, pk: nat)
    returns (resp: Response)
    requires store.Valid() && requester in users
    modifies store`comments
    ensures store.Valid()
    ensures !IsAdmin(users[requester]) ==> resp == Response(400, Empty) && store.comments == old(store.comments)
    ensures IsAdmin(users[requester]) && pk !in old(store.comments) ==>
      resp == Response(404, Empty) && store.comments == old(store.comments)
    ensures IsAdmin(users[requester]) && pk in old(store.comments) ==>
      resp == Response(204, Empty) && store.comments == old(store.comments) - {pk}
  {
    if IsAdmin(users[requester]) {
      if pk !in store.comments {
        return Response(404, Empty);
      }
      store.Delete(pk);
      resp := Response(204, Empty);
    } else {
      resp := Response(400, Empty);
    }
  }
}
