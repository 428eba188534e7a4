/** The current task routes (`/tasks`): one item per task, keyed by
    `task_id`, whose `status` moves open -> accepted -> completed. */
module Tasks {
  import opened Base
  import opened Http

  type TaskId = string

  datatype Status = Open | Accepted | Completed

  /** A stored task item. `Option` fields are attributes an item may lack:
      create writes `status` and `tags`, accept adds `accepted_by` and
      `accepted_at`, complete adds `completed_at`, and nothing in these routes
      ever writes `completed_by` (the rating routes read it). */
  datatype Task = Task(
    taskId: TaskId,
    title: string,
    description: string,
    tags: Option<seq<string>>,
    location: Option<string>,
    time: Option<string>,
    timestamp: Time,
    postedBy: UserId,
    status: Option<Status>,
    acceptedBy: Option<UserId>,
    acceptedAt: Option<Time>,
    completedBy: Option<UserId>,
    completedAt: Option<Time>)

  /** The fields of the create payload the handler copies. */
  datatype TaskDraft = TaskDraft(
    title: string,
    description: string,
    tags: seq<string>,
    location: Option<string>,
    time: Option<string>)

  /** The response shape built by `serialize_task`; it has no `completed_by`. */
  datatype TaskView = TaskView(
    taskId: TaskId,
    title: string,
    description: string,
    postedBy: UserId,
    tags: seq<string>,
    location: Option<string>,
    time: Option<string>,
    timestamp: Time,
    status: Status,
    acceptedBy: Option<UserId>,
    acceptedAt: Option<Time>,
    completedAt: Option<Time>)

  type Store = map<TaskId, Task>

  /** How a status reads inside an f-string (`None` when the attribute is absent). */
  function StatusName(s: Option<Status>): string {
    match s
    case None => "None"
    case Some(Open) => "open"
    case Some(Accepted) => "accepted"
    case Some(Completed) => "completed"
  }

  /** The posting fields a lifecycle transition must not touch. */
  predicate SamePosting(t: Task, u: Task) {
    && u.taskId == t.taskId && u.title == t.title && u.description == t.description
    && u.tags == t.tags && u.location == t.location && u.time == t.time
    && u.timestamp == t.timestamp && u.postedBy == t.postedBy
  }

  /** `s'` differs from `s` at most in the item under `id`, and has the same keys. */
  predicate OthersUnchanged(s: Store, s': Store, id: TaskId) {
    && s'.Keys == s.Keys
    && forall k :: k in s && k != id ==> s'[k] == s[k]
  }

  /** `serialize_task`: copies the item, showing a missing status as open and
      missing tags as the empty list, and drops `completed_by`. */
  function Serialize(t: Task): (v: TaskView)
    ensures v.taskId == t.taskId && v.postedBy == t.postedBy && v.timestamp == t.timestamp
    ensures v.title == t.title && v.description == t.description
    ensures v.location == t.location && v.time == t.time
    ensures v.acceptedBy == t.acceptedBy && v.acceptedAt == t.acceptedAt && v.completedAt == t.completedAt
    ensures v.status == Open <==> t.status in {None, Some(Open)}
    ensures t.status.Some? ==> v.status == t.status.value
    ensures t.tags.None? ==> v.tags == []
    ensures t.tags.Some? ==> v.tags == t.tags.value
  {
    TaskView(
      t.taskId, t.title, t.description, t.postedBy,
      match t.tags case Some(ts) => ts case None => [],
      t.location, t.time, t.timestamp,
      match t.status case Some(s) => s case None => Open,
      t.acceptedBy, t.acceptedAt, t.completedAt)
  }

  /** The item `create_task` writes. */
  function Posted(caller: UserId, d: TaskDraft, id: TaskId, now: Time): (t: Task)
    ensures t.taskId == id && t.postedBy == caller && t.timestamp == now
    ensures t.title == d.title && t.description == d.description && t.tags == Some(d.tags)
    ensures t.location == d.location && t.time == d.time
    ensures t.status == Some(Open)
    ensures t.acceptedBy.None? && t.acceptedAt.None? && t.completedBy.None? && t.completedAt.None?
  {
    Task(id, d.title, d.description, Some(d.tags), d.location, d.time, now, caller,
         Some(Open), None, None, None, None)
  }

  /** `create_task`: no validation; the item is put under the fresh id
      (replacing whatever was there) and returned serialized. */
  function CreateTask(tasks: Store, caller: UserId, d: TaskDraft, id: TaskId, now: Time)
    : (r: Reply<Store, TaskView>)
    ensures r.store.Keys == tasks.Keys + {id}
    ensures forall k :: k in tasks && k != id ==> r.store[k] == tasks[k]
    ensures r.store[id] == Posted(caller, d, id, now)
    ensures r.body.status == Open && r.body.postedBy == caller && r.body.tags == d.tags
    ensures r.body.acceptedBy.None? && r.body.acceptedAt.None? && r.body.completedAt.None?
  {
    var t := Posted(caller, d, id, now);
    Reply(tasks[id := t], Serialize(t))
  }

  /** `get_task`. */
  function GetTask(tasks: Store, id: TaskId): (r: Result<TaskView>)
    ensures r.Err? <==> id !in tasks
    ensures r.Err? ==> r.error == Error(404, TaskNotFound)
    ensures r.Ok? ==> r.value == Serialize(tasks[id])
  {
    if id !in tasks then Err(Error(404, TaskNotFound)) else Ok(Serialize(tasks[id]))
  }

  /** `accept_task`: 404 for a missing task, 400 unless it is open (a missing
      `status` attribute is a KeyError, hence 500). The poster is not
      excluded. */
  function AcceptTask(tasks: Store, caller: UserId, id: TaskId, now: Time)
    : (r: Result<Reply<Store, TaskView>>)
    ensures id !in tasks ==> r == Err(Error(404, TaskNotFound))
    ensures id in tasks && tasks[id].status.None? ==> r == Err(Error(500, MissingAttribute("status")))
    ensures id in tasks && tasks[id].status.Some? && tasks[id].status != Some(Open) ==>
              r == Err(Error(400, TaskNotOpen))
    ensures r.Ok? <==> id in tasks && tasks[id].status == Some(Open)
    ensures r.Ok? ==> OthersUnchanged(tasks, r.value.store, id)
    ensures r.Ok? ==>
              var t, t' := tasks[id], r.value.store[id];
              && SamePosting(t, t')
              && t'.status == Some(Accepted) && t'.acceptedBy == Some(caller) && t'.acceptedAt == Some(now)
              && t'.completedBy == t.completedBy && t'.completedAt == t.completedAt
              && r.value.body == Serialize(t')
  {
    if id !in tasks then Err(Error(404, TaskNotFound))
    else
      var t := tasks[id];
      if t.status.None? then Err(Error(500, MissingAttribute("status")))
      else if t.status != Some(Open) then Err(Error(400, TaskNotOpen))
      else
        var t' := t.(status := Some(Accepted), acceptedBy := Some(caller), acceptedAt := Some(now));
        Ok(Reply(tasks[id := t'], Serialize(t')))
  }

  /** `complete_task`: 404 for a missing task; a single 403 unless the task
      is accepted and the caller is its accepter. Only `status` and
      `completed_at` are written: `completed_by` is not. */
  function CompleteTask(tasks: Store, caller: UserId, id: TaskId, now: Time)
    : (r: Result<Reply<Store, TaskView>>)
    ensures id !in tasks ==> r == Err(Error(404, TaskNotFound))
    ensures id in tasks && (tasks[id].status != Some(Accepted) || tasks[id].acceptedBy != Some(caller)) ==>
              r == Err(Error(403, NotAllowedToComplete))
    ensures r.Ok? <==> id in tasks && tasks[id].status == Some(Accepted) && tasks[id].acceptedBy == Some(caller)
    ensures r.Ok? ==> OthersUnchanged(tasks, r.value.store, id)
    ensures r.Ok? ==>
              var t, t' := tasks[id], r.value.store[id];
              && SamePosting(t, t')
              && t'.status == Some(Completed) && t'.completedAt == Some(now)
              && t'.acceptedBy == t.acceptedBy && t'.acceptedAt == t.acceptedAt
              && t'.completedBy == t.completedBy
              && r.value.body == Serialize(t')
  {
    if id !in tasks then Err(Error(404, TaskNotFound))
    else
      var t := tasks[id];
      if t.status != Some(Accepted) || t.acceptedBy != Some(caller) then Err(Error(403, NotAllowedToComplete))
      else
        var t' := t.(status := Some(Completed), completedAt := Some(now));
        Ok(Reply(tasks[id := t'], Serialize(t')))
  }

  /** The completion that evidently was meant: as `CompleteTask`, but it also
      records the caller as `completed_by`, which the rating routes read. */
  function CompleteRecordingCompleter(tasks: Store, caller: UserId, id: TaskId, now: Time)
    : (r: Result<Reply<Store, TaskView>>)
    ensures r.Ok? <==> id in tasks && tasks[id].status == Some(Accepted) && tasks[id].acceptedBy == Some(caller)
    ensures r.Err? ==> r == CompleteTask(tasks, caller, id, now)
    ensures r.Ok? ==> OthersUnchanged(tasks, r.value.store, id)
    ensures r.Ok? ==>
              var t, t' := tasks[id], r.value.store[id];
              && SamePosting(t, t')
              && t'.status == Some(Completed) && t'.completedAt == Some(now)
              && t'.acceptedBy == t.acceptedBy && t'.acceptedAt == t.acceptedAt
              && t'.completedBy == Some(caller)
  {
    match CompleteTask(tasks, caller, id, now)
    case Err(e) => Err(e)
    case Ok(rep) =>
      var t' := rep.store[id].(completedBy := Some(caller));
      Ok(Reply(rep.store[id := t'], Serialize(t')))
  }

  /** `delete_task`: checks, in order, missing (404), not the poster (403),
      not open (400); success removes the item outright. */
  function DeleteTask(tasks: Store, caller: UserId, id: TaskId): (r: Result<Reply<Store, ()>>)
    ensures id !in tasks ==> r == Err(Error(404, TaskNotFound))
    ensures id in tasks && tasks[id].postedBy != caller ==> r == Err(Error(403, NotTaskOwner))
    ensures id in tasks && tasks[id].postedBy == caller && tasks[id].status.None? ==>
              r == Err(Error(500, MissingAttribute("status")))
    ensures id in tasks && tasks[id].postedBy == caller && tasks[id].status.Some? && tasks[id].status != Some(Open) ==>
              r == Err(Error(400, OnlyOpenDeletable))
    ensures r.Ok? <==> id in tasks && tasks[id].postedBy == caller && tasks[id].status == Some(Open)
    ensures r.Ok? ==> r.value.store.Keys == tasks.Keys - {id}
    ensures r.Ok? ==> forall k :: k in r.value.store ==> r.value.store[k] == tasks[k]
  {
    if id !in tasks then Err(Error(404, TaskNotFound))
    else
      var t := tasks[id];
      if t.postedBy != caller then Err(Error(403, NotTaskOwner))
      else if t.status.None? then Err(Error(500, MissingAttribute("status")))
      else if t.status != Some(Open) then Err(Error(400, OnlyOpenDeletable))
      else Ok(Reply(tasks - {id}, ()))
  }

  /** A deleted task is gone: fetching it afterwards is a 404, and a second
      delete is a 404 too. */
  lemma DeleteIsHard(tasks: Store, caller: UserId, id: TaskId)
    requires DeleteTask(tasks, caller, id).Ok?
    ensures GetTask(DeleteTask(tasks, caller, id).value.store, id) == Err(Error(404, TaskNotFound))
    ensures DeleteTask(DeleteTask(tasks, caller, id).value.store, caller, id) == Err(Error(404, TaskNotFound))
  {
  }

  /** A created task can be fetched back exactly as create returned it. */
  lemma CreateThenGet(tasks: Store, caller: UserId, d: TaskDraft, id: TaskId, now: Time)
    ensures GetTask(CreateTask(tasks, caller, d, id, now).store, id) == Ok(CreateTask(tasks, caller, d, id, now).body)
  {
  }

  /** Nothing stops the poster from accepting their own open task. */
  lemma PosterMayAcceptOwnTask(tasks: Store, id: TaskId, now: Time)
    requires id in tasks && tasks[id].status == Some(Open)
    ensures AcceptTask(tasks, tasks[id].postedBy, id, now).Ok?
    ensures AcceptTask(tasks, tasks[id].postedBy, id, now).value.store[id].acceptedBy == Some(tasks[id].postedBy)
  {
  }

  /** Accepting twice: the second accept of the same task always fails with 400,
      whoever calls it. */
  lemma SecondAcceptFails(tasks: Store, a: UserId, b: UserId, id: TaskId, now: Time, later: Time)
    requires AcceptTask(tasks, a, id, now).Ok?
    ensures AcceptTask(AcceptTask(tasks, a, id, now).value.store, b, id, later) == Err(Error(400, TaskNotOpen))
  {
  }
}
