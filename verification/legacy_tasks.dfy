/** The earlier task routes (`pup-skillswap-main`): statuses POSTED,
    IN_PROGRESS and COMPLETED, and a handler-wide `except Exception` that
    turns every error, the handler's own 404/400/403 included, into a 500. */
module LegacyTasks {
  import opened Base
  import opened Http
  import opened Scan
  import Tasks

  datatype Status = Posted | InProgress | Completed

  /** A stored legacy task: the create payload as sent, plus what the
      routes add to it. */
  datatype Task = Task(
    taskId: Tasks.TaskId,
    draft: Tasks.TaskDraft,
    timestamp: Time,
    status: Option<Status>,
    postedBy: UserId,
    acceptedBy: Option<UserId>,
    acceptedAt: Option<Time>,
    completedAt: Option<Time>)

  type Store = map<Tasks.TaskId, Task>

  /** How far along the lifecycle a status is. */
  function Rank(s: Option<Status>): nat {
    match s
    case None => 0
    case Some(Posted) => 1
    case Some(InProgress) => 2
    case Some(Completed) => 3
  }

  predicate OthersUnchanged(s: Store, s': Store, id: Tasks.TaskId) {
    && s'.Keys == s.Keys
    && forall k :: k in s && k != id ==> s'[k] == s[k]
  }

  /** `create_task`: the payload with a fresh id, the time, status POSTED and
      the caller as poster (whatever the payload said). */
  function CreateTask(tasks: Store, caller: UserId, d: Tasks.TaskDraft, id: Tasks.TaskId, now: Time)
    : (r: Reply<Store, Task>)
    ensures r.store.Keys == tasks.Keys + {id}
    ensures forall k :: k in tasks && k != id ==> r.store[k] == tasks[k]
    ensures r.store[id] == r.body
    ensures r.body.taskId == id && r.body.timestamp == now
    ensures r.body.draft == d && r.body.postedBy == caller && r.body.status == Some(Posted)
    ensures r.body.acceptedBy.None? && r.body.acceptedAt.None? && r.body.completedAt.None?
  {
    var t := Task(id, d, now, Some(Posted), caller, None, None, None);
    Reply(tasks[id := t], t)
  }

  /** The scan filter of `list_tasks`: status POSTED, and, when given and
      non-empty, the tag among the tags and the location equal. */
  predicate Listed(t: Task, tag: Option<string>, location: Option<string>) {
    && t.status == Some(Posted)
    && (tag.None? || tag.value == "" || tag.value in t.draft.tags)
    && (location.None? || location.value == "" || t.draft.location == location)
  }

  /** `list_tasks`: the matching items in scan order, unsorted. */
  function ListTasks(tasks: Store, scan: seq<Tasks.TaskId>, tag: Option<string>, location: Option<string>)
    : (r: seq<Task>)
    requires IsScanOf(scan, tasks)
    ensures forall t :: t in r <==> t in tasks.Values && Listed(t, tag, location)
    ensures |r| == |set k | k in tasks && Listed(tasks[k], tag, location)|
    ensures |r| <= |tasks|
    ensures forall t :: multiset(r)[t] == if Listed(t, tag, location) then |KeysHolding(tasks, t)| else 0
  {
    RowsAreValues(scan, tasks);
    ScanLength(scan, tasks);
    var keep := (t: Task) => Listed(t, tag, location);
    FilterRowsCount(scan, tasks, keep);
    FilterRowsMultiplicity(scan, tasks, keep);
    KeysWhereIs(tasks, keep, set k | k in tasks && Listed(tasks[k], tag, location));
    Filter(Rows(scan, tasks), keep)
  }

  /** `get_task`: a missing item is a 404, caught and re-raised as a 500. */
  function GetTask(tasks: Store, id: Tasks.TaskId): (r: Result<Task>)
    ensures r.Ok? <==> id in tasks
    ensures r.Ok? ==> r.value == tasks[id]
    ensures r.Err? ==> r.error == CaughtAll(Error(404, TaskNotFound))
  {
    if id !in tasks then Err(CaughtAll(Error(404, TaskNotFound))) else Ok(tasks[id])
  }

  /** A posted task can be fetched back exactly as create returned it, and
      every other id fetches as before. */
  lemma CreateThenGet(tasks: Store, caller: UserId, d: Tasks.TaskDraft, id: Tasks.TaskId, now: Time,
                      other: Tasks.TaskId)
    ensures GetTask(CreateTask(tasks, caller, d, id, now).store, id)
              == Ok(Task(id, d, now, Some(Posted), caller, None, None, None))
    ensures other != id ==> GetTask(CreateTask(tasks, caller, d, id, now).store, other) == GetTask(tasks, other)
  {
  }

  /** `accept_task`: missing item 404, missing status KeyError, status other
      than POSTED 400 — each surfacing as a 500. Anyone may accept,
      the poster included. */
  function AcceptTask(tasks: Store, caller: UserId, id: Tasks.TaskId, now: Time)
    : (r: Result<Reply<Store, Task>>)
    ensures r.Ok? <==> id in tasks && tasks[id].status == Some(Posted)
    ensures r.Err? ==> r.error.code == 500 && r.error.why.Wrapped?
    ensures id !in tasks ==> r == Err(CaughtAll(Error(404, TaskNotFound)))
    ensures id in tasks && tasks[id].status.Some? && tasks[id].status != Some(Posted) ==>
              r == Err(CaughtAll(Error(400, TaskAlreadyAccepted)))
    ensures r.Ok? ==> OthersUnchanged(tasks, r.value.store, id) && r.value.store[id] == r.value.body
    ensures r.Ok? ==>
              r.value.body == tasks[id].(status := Some(InProgress), acceptedBy := Some(caller), acceptedAt := Some(now))
    ensures r.Ok? ==> Rank(r.value.body.status) == Rank(tasks[id].status) + 1
  {
    if id !in tasks then Err(CaughtAll(Error(404, TaskNotFound)))
    else
      var t := tasks[id];
      if t.status.None? then Err(CaughtAll(Error(500, MissingAttribute("status"))))
      else if t.status != Some(Posted) then Err(CaughtAll(Error(400, TaskAlreadyAccepted)))
      else
        var t' := t.(status := Some(InProgress), acceptedBy := Some(caller), acceptedAt := Some(now));
        Ok(Reply(tasks[id := t'], t'))
  }

  /** `complete_task`: missing item 404, status other than IN_PROGRESS 400,
      a caller other than the accepter 403 — each surfacing as a 500. */
  function CompleteTask(tasks: Store, caller: UserId, id: Tasks.TaskId, now: Time)
    : (r: Result<Reply<Store, Task>>)
    ensures r.Ok? <==> id in tasks && tasks[id].status == Some(InProgress) && tasks[id].acceptedBy == Some(caller)
    ensures r.Err? ==> r.error.code == 500 && r.error.why.Wrapped?
    ensures id !in tasks ==> r == Err(CaughtAll(Error(404, TaskNotFound)))
    ensures id in tasks && tasks[id].status.Some? && tasks[id].status != Some(InProgress) ==>
              r == Err(CaughtAll(Error(400, TaskNotInProgress)))
    ensures id in tasks && tasks[id].status == Some(InProgress) && tasks[id].acceptedBy != Some(caller) ==>
              r == Err(CaughtAll(Error(403, NotTaskAccepter)))
    ensures r.Ok? ==> OthersUnchanged(tasks, r.value.store, id) && r.value.store[id] == r.value.body
    ensures r.Ok? ==> r.value.body == tasks[id].(status := Some(Completed), completedAt := Some(now))
    ensures r.Ok? ==> Rank(r.value.body.status) == Rank(tasks[id].status) + 1
  {
    if id !in tasks then Err(CaughtAll(Error(404, TaskNotFound)))
    else
      var t := tasks[id];
      if t.status.None? then Err(CaughtAll(Error(500, MissingAttribute("status"))))
      else if t.status != Some(InProgress) then Err(CaughtAll(Error(400, TaskNotInProgress)))
      else if t.acceptedBy != Some(caller) then Err(CaughtAll(Error(403, NotTaskAccepter)))
      else
        var t' := t.(status := Some(Completed), completedAt := Some(now));
        Ok(Reply(tasks[id := t'], t'))
  }

  /** The legacy operations, for reasoning about sequences of requests. */
  datatype Op =
    | Create(caller: UserId, d: Tasks.TaskDraft, id: Tasks.TaskId, now: Time)
    | Accept(caller: UserId, id: Tasks.TaskId, now: Time)
    | Complete(caller: UserId, id: Tasks.TaskId, now: Time)

  /** The store after one request; a failed request leaves it as it was. */
  function Apply(s: Store, op: Op): Store {
    match op
    case Create(c, d, id, now) => CreateTask(s, c, d, id, now).store
    case Accept(c, id, now) => (match AcceptTask(s, c, id, now) case Ok(rep) => rep.store case Err(_) => s)
    case Complete(c, id, now) => (match CompleteTask(s, c, id, now) case Ok(rep) => rep.store case Err(_) => s)
  }

  function Run(s: Store, ops: seq<Op>): Store
    decreases |ops|
  {
    if ops == [] then s else Run(Apply(s, ops[0]), ops[1..])
  }

  predicate Creates(op: Op, k: Tasks.TaskId) {
    op.Create? && op.id == k
  }

  /** Outside a re-creation under the same id, a task's status never moves
      backwards: each item keeps a rank at least as high as before. */
  lemma {:induction false} StatusNeverGoesBack(s: Store, ops: seq<Op>, k: Tasks.TaskId)
    requires k in s
    requires forall i :: 0 <= i < |ops| ==> !Creates(ops[i], k)
    ensures k in Run(s, ops) && Rank(Run(s, ops)[k].status) >= Rank(s[k].status)
    decreases |ops|
  {
    if ops != [] {
      var s1 := Apply(s, ops[0]);
      assert !Creates(ops[0], k);
      assert k in s1 && Rank(s1[k].status) >= Rank(s[k].status);
      assert forall i :: 0 <= i < |ops[1..]| ==> !Creates(ops[1..][i], k) by {
        forall i | 0 <= i < |ops[1..]| ensures !Creates(ops[1..][i], k) {
          assert ops[1..][i] == ops[i + 1];
        }
      }
      StatusNeverGoesBack(s1, ops[1..], k);
    }
  }

  /** The happy path: a posted task accepted by one user can be completed
      by that user, and by no one else. */
  lemma AcceptThenComplete(tasks: Store, poster: UserId, d: Tasks.TaskDraft, id: Tasks.TaskId,
                           helper: UserId, other: UserId, t0: Time, t1: Time, t2: Time)
    requires other != helper
    ensures
      var s0 := CreateTask(tasks, poster, d, id, t0).store;
      var s1 := AcceptTask(s0, helper, id, t1).value.store;
      && CompleteTask(s1, helper, id, t2).Ok?
      && CompleteTask(s1, other, id, t2) == Err(CaughtAll(Error(403, NotTaskAccepter)))
      && AcceptTask(s1, other, id, t2) == Err(CaughtAll(Error(400, TaskAlreadyAccepted)))
  {
  }

  /** Accepting takes a task out of the open listing. */
  lemma AcceptedLeavesListing(tasks: Store, caller: UserId, id: Tasks.TaskId, now: Time,
                              scan: seq<Tasks.TaskId>, tag: Option<string>, location: Option<string>)
    requires AcceptTask(tasks, caller, id, now).Ok?
    requires IsScanOf(scan, AcceptTask(tasks, caller, id, now).value.store)
    ensures AcceptTask(tasks, caller, id, now).value.body !in
              ListTasks(AcceptTask(tasks, caller, id, now).value.store, scan, tag, location)
  {
  }
}
