# taskz: the task status workflow, assignment notifications and comment rules

This project models the core of the `taskz` application of the nomads
task-tracking backend in Dafny and proves properties of it.

- **Status ledger.** Every task keeps an append-only ledger of statuses. The
  ledger is a `seq<string>`, oldest entry first, so the current status is the
  last element. This sequence order replaces the ordering by `created`
  timestamp.
- **Workflow.** `forward` and `backward` share `_move(direction, limit)`. At
  the limit (`Archived` going forward, `New` going backward) `_move` raises
  `TaskStatusException` and appends nothing. Otherwise it appends the
  neighbour of the current status in `New, In progress, Completed, Archived`.
- **Post-save hook.** `save_task` seeds an empty ledger with one `New` entry.
  It never touches a ledger that already has entries.
- **Assignment hook.** `user_assigned` queues one `notify_user` job
  `(task, user id)` for each id in the `post_add` set. The framework's `add`
  passes only ids that were not already assignees. The job queue is an
  `Outbox` sequence.
- **Request handlers.** forward/backward (400 on `TaskStatusException`),
  assign (404 for a missing task or user, otherwise 200), comment create (the
  author is the requesting user) and comment delete (ADMIN group only, and
  checked before the comment is looked up).

Files:
- `wrappers.dfy`: Option and Result.
- `constants.dfy`: module `Constants`, for `taskz/constants.py`. It also
  holds Python's negative indexing (`PyIndex`) and `tuple.index` (`IndexOf`).
- `models.dfy`: module `Models`, for `taskz/models.py`. It has the pure
  ledger functions and their lemmas, plus the classes `Task`, `Outbox` and
  `CommentStore`.
- `views.dfy`: module `Views`, for `taskz/views.py`.

Modelling decisions:
- Statuses are strings, as in the source. The source does not enforce the
  column's choices on save (tests.py:30-37 stores `'TESTING'`). For such a
  status, `STATUSES.index` raises `ValueError`. The model keeps this as its
  own error, `UnknownStatus`, separate from `TaskStatusException`. The views
  do not catch it, so the framework answers 500.
- `_move` is only ever called as `_move(1, LAST_TASK_STATUS)` or
  `_move(-1, NEW_TASK_STATUS)`, so `MoveArgs` requires one of those pairs.
  With them, the index `STATUSES.index(current) + direction` never goes
  negative. So Python's wrap-around (`STATUSES[-1]`) is never reached; the
  `MoveLedger` contract proves this.
- `current_status` is only read on saved tasks. The post-save hook gives
  every saved task at least one entry, so a non-empty ledger is a
  precondition. On an empty ledger the source would fail with
  `AttributeError`.
- Comment create does not validate its body. A missing `comment` text or a
  `task` id that does not exist is refused by the database, as an uncaught
  `IntegrityError`. The model answers 500 for that case and stores nothing.
- The stores are values passed to the handlers:
  - tasks are a `map<nat, Task>` of saved tasks;
  - users are a `map<nat, set<string>>` from user id to group names;
  - comments are a `CommentStore` with an auto-increment id.

## Model

| member | source | states |
|---|---|---|
| Constants.WorkflowOrder | taskz/constants.py:3 | there are exactly four statuses, in the order New, In progress, Completed, Archived |
| Constants.StatusesDistinct | taskz/constants.py:3 | the four statuses are pairwise distinct |
| Constants.IndexOf | taskz/models.py:29 | `STATUSES.index(x)`: None exactly when `x` is not listed (ValueError); otherwise a position holding `x` with no earlier occurrence |
| Constants.PositionOf | taskz/models.py:29 | `STATUSES.index` finds each status at its own position, so every status has exactly one position |
| Constants.WorkflowEnds | taskz/constants.py:7-8 | `NEW_TASK_STATUS` is the first status (`New`) and `LAST_TASK_STATUS` the last (`Archived`, through Python's `[-1]`), and they differ |
| Constants.ChoicesAreStatuses | taskz/constants.py:5 | the declared status choices store exactly `STATUSES`, in order, each labelled by itself |
| Constants.AdminGroupName | taskz/constants.py:10 | the administrative group is named `ADMIN` |
| Models.Current | taskz/models.py:19-21 | the current status is the newest ledger entry: the ledger is its earlier entries followed by it |
| Models.Task.CurrentStatus | taskz/models.py:19-21 | a task's `current_status` is the last entry of its own ledger |
| Models.CurrentIsNewest | taskz/models.py:19-21 | the current status is the status of the most recently appended ledger entry |
| Models.MoveLedger | taskz/models.py:23-30 | `_move` raises TaskStatusException exactly when the current status is the limit, and ValueError exactly when the status is not listed; otherwise it appends exactly one entry, keeps all earlier ones, and the new status's position is the old one plus `direction` |
| Models.ForwardLedger | taskz/models.py:32-33 | `forward` raises TaskStatusException exactly at `Archived` and ValueError exactly for an unlisted status; it succeeds exactly for a listed status other than `Archived`, and then appends exactly the status after the current one |
| Models.BackwardLedger | taskz/models.py:35-36 | `backward` raises TaskStatusException exactly at `New` and ValueError exactly for an unlisted status; it succeeds exactly for a listed status other than `New`, and then appends exactly the status before the current one |
| Models.MoveAppendsNeighbour | taskz/models.py:28-30 | away from the limit, the appended entry is `STATUSES[k + direction]` for the current status `STATUSES[k]`, and that index is in range |
| Models.ForwardThenBackward | taskz/models.py:32-36 | a successful `forward` followed by `backward` succeeds and restores the original current status |
| Models.BackwardThenForward | taskz/models.py:32-36 | a successful `backward` followed by `forward` succeeds and restores the original current status |
| Models.SomeMoveIsLegal | taskz/models.py:32-36 | from every listed status at least one of `forward` and `backward` succeeds |
| Models.ForwardTimes | taskz/models.py:32-33 | `k` successful forwards grow the ledger by exactly `k` entries and keep the earlier entries |
| Models.ForwardAlongWorkflow | taskz/models.py:28-33 | `forward` from a ledger holding the first `k` statuses (0 < k < 4) appends exactly `STATUSES[k]` |
| Models.ForwardTimesStep | taskz/models.py:32-33 | a run of `k` forwards ending in `l`, followed by one more forward from `l`, is a run of `k + 1` forwards |
| Models.ForwardsFromNew | taskz/models.py:32-33 | from a fresh ledger, `k <= 3` forwards record `STATUSES[0..k]`, so the current status is `STATUSES[k]` |
| Models.ForwardPastArchived | taskz/models.py:25-26 | a fourth forward from a fresh ledger raises TaskStatusException |
| Models.SaveHook | taskz/models.py:54-57 | after the hook the ledger is non-empty: an empty ledger becomes `[New]`, and any other ledger is left as it was |
| Models.ResaveKeepsLedger | taskz/models.py:54-57 | saving a task that has a ledger any number of times changes neither the number of entries nor their contents |
| Models.CreatedTaskLedger | taskz/models.py:54-57 | a new task, saved once or more, has exactly one ledger entry, and it is `New` |
| Models.SaveTask | taskz/models.py:54-57 | the post-save hook leaves the ledger as `SaveHook` of the old one: seeded with `New` only when empty |
| Models.CreateTask | taskz/models.py:11-14 | a created and saved task has the given title and `about` or their defaults (`Task`, empty), no assignees, and the ledger `[New]` |
| Models.Task.constructor | taskz/models.py:11-14 | an unsaved task has the title default `Task`, the `about` default empty, no assignees and an empty ledger |
| Models.Task.Move | taskz/models.py:23-30 | `_move` appends the entry `MoveLedger` computes, or raises its exception and leaves the ledger unchanged; no other field changes |
| Models.Task.Forward | taskz/models.py:32-33 | `forward` is `_move(1, LAST_TASK_STATUS)` on the ledger |
| Models.Task.Backward | taskz/models.py:35-36 | `backward` is `_move(-1, NEW_TASK_STATUS)` on the ledger |
| Models.Task.AddAssignee | taskz/models.py:59-65 | adding an assignee puts the user in the set; exactly one job `(task, user)` is queued if the user was new, and none otherwise |
| Models.OneJobEachExtend | taskz/models.py:64-65 | queuing one job for an id not yet notified keeps exactly one job per notified id |
| Models.AppendedJobs | taskz/models.py:64-65 | jobs appended after the existing queue, one per id, leave the earlier jobs in place and notify each id once |
| Models.UserAssigned | taskz/models.py:59-65 | on `post_add`, exactly one job `(task, id)` is queued for each id in the set and nothing else, after the existing jobs; any other action queues nothing |
| Models.Outbox.Delay | taskz/models.py:65 | `notify_user.delay` appends one job to the queue |
| Models.CommentStore.Insert | taskz/models.py:48-51 | saving a new comment stores it under a fresh id, with the given author, task and text, and keeps every other comment |
| Models.CommentStore.Delete | taskz/views.py:74 | deleting a comment removes exactly that id |
| Views.IsAdmin | taskz/views.py:72 | a requester is an administrator exactly when one of their groups is named `ADMIN` |
| Views.TransitionResponse | taskz/views.py:40-48 | a transition answers 200 with the task's updated current status exactly on success, 400 exactly on TaskStatusException, and 500 with no body on the uncaught ValueError |
| Views.TaskForward | taskz/views.py:40-48 | forward: 404 for an unknown task; on TaskStatusException 400 and the ledger unchanged; on success 200 with (id, new current status) and the ledger extended by `forward` |
| Views.TaskBackward | taskz/views.py:30-38 | backward: the same as forward, one step the other way |
| Views.TaskAssign | taskz/views.py:50-55 | 404 when the task or the user id is missing; otherwise 200 whether or not the user was already assigned, with the user added and a job queued only for a new assignee |
| Views.CommentCreate | taskz/views.py:63-67 | the stored comment's author is the requesting user, not the body's `user`; the text is stored exactly; a missing task or text stores nothing |
| Views.CommentDestroy | taskz/views.py:69-78 | outside ADMIN: 400 and the comments are unchanged; ADMIN: 404 for an unknown id, otherwise 204 and exactly that comment is removed |

## Left out

- Authentication and permissions (`IsAuthenticated`, sessions, the 403
  responses). These are framework-supplied. Every handler is modelled as
  reached by a known user.
- URL routing, admin registration and the generic CRUD endpoints (list,
  retrieve, update, and create/delete of tasks, users and groups). The
  framework supplies these, and they carry no rules of this application.
- Serialisation. A returned task is the pair (id, current status). A returned
  comment is the stored `Comment` without its timestamps.
- The `created`/`modified` timestamps and the ORM query behind
  `current_status`. The ledger's sequence order replaces them; the source
  leaves ties between equal timestamps undefined.
- The `title` length limit (50) and the declared choices on the status
  column. Neither is checked by the model layer on save.
- Mail composition and sending in `notify_user` (nomads/celery.py). That is
  I/O through a foreign library, and `send_mail` is called with `fail_silently`. The model stops at the
  queued job.
- Concurrent `forward`/`backward` requests on one task. The source takes no
  locks and leaves this to the database.
- Cascading deletes of a task's ledger entries and comments. No handler
  modelled here deletes a task.
- Views.TaskForward, Views.TaskBackward, Views.TaskAssign, Views.CommentDestroy:
  ids are assumed to parse as integers. A malformed id (a URL pk or a body
  `user` such as `abc`) makes the integer lookup inside `get_object_or_404`
  raise `ValueError`, which the framework answers with 500; the model types
  every id as `nat` and cannot express that case.
- Models.UserAssigned: models only the task side of the assignee relation. The
  hook is registered on the relation's through table, so a reverse-side
  `user.tasks.add(task)` also fires it with the user as `instance` and task ids
  in `pk_set`, queuing `notify_user.delay(user, task_id)` with the arguments
  swapped. No handler modelled here adds from the user side.
- Models.Outbox.Delay, Views.TaskAssign: the model assumes `notify_user.delay(instance, user_id)`
  returns normally. nomads/celery.py:13-14 declares the task with `bind=True`
  but without a `self` parameter, so the two arguments do not fit its
  signature. Depending on the Celery version and settings, either the worker
  fails with `TypeError` and no mail is sent, or `.delay` itself raises. In the
  second case the error comes from inside the `post_add` signal of the
  many-to-many `add`, so the insert is rolled back and `assign` answers 500
  without adding the user. The model always answers 200, adds the user and
  queues the job.
- Views.TaskForward, Views.TaskBackward: the requirement that every stored
  task has a ledger entry rests on the post-save hook. The `TaskStatus` rows
  can still be deleted directly, through the admin site (taskz/admin.py
  registers the model) or the ORM. A task left with no entries makes
  `current_status` fail with `AttributeError`, which the framework answers
  with 500. The model does not cover that case.
