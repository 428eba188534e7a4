/** The current task routes as a state machine over the task table:
    any sequence of create / accept / complete / delete calls keeps every
    item consistent and only ever moves a status forward. */
module TaskLifecycle {
  import opened Base
  import opened Http
  import opened Tasks
  import opened Scan

  /** One call to a mutating task route, with the fresh id and clock reading it uses. */
  datatype Op =
    | Create(caller: UserId, draft: TaskDraft, id: TaskId, now: Time)
    | Accept(caller: UserId, id: TaskId, now: Time)
    | Complete(caller: UserId, id: TaskId, now: Time)
    | Delete(caller: UserId, id: TaskId)

  /** `AsWritten` is `complete_task` as the routes have it; `RecordingCompleter`
      is the completion that also stores `completed_by`. */
  datatype Variant = AsWritten | RecordingCompleter

  function Completion(v: Variant, s: Store, caller: UserId, id: TaskId, now: Time): Result<Reply<Store, TaskView>> {
    match v
    case AsWritten => CompleteTask(s, caller, id, now)
    case RecordingCompleter => CompleteRecordingCompleter(s, caller, id, now)
  }

  /** The table after one call; a call that errs writes nothing. */
  function Apply(v: Variant, s: Store, op: Op): Store {
    match op
    case Create(c, d, id, now) => CreateTask(s, c, d, id, now).store
    case Accept(c, id, now) =>
      (match AcceptTask(s, c, id, now) case Ok(rep) => rep.store case Err(_) => s)
    case Complete(c, id, now) =>
      (match Completion(v, s, c, id, now) case Ok(rep) => rep.store case Err(_) => s)
    case Delete(c, id) =>
      (match DeleteTask(s, c, id) case Ok(rep) => rep.store case Err(_) => s)
  }

  function Run(v: Variant, s: Store, ops: seq<Op>): Store
    decreases |ops|
  {
    if ops == [] then s else Run(v, Apply(v, s, ops[0]), ops[1..])
  }

  /** The lifecycle invariant of one item: a status is present; `accepted_by`
      and `accepted_at` are present exactly when the task is accepted or
      completed; `completed_at` exactly when it is completed. Under the
      routes as written `completed_by` stays absent; with the recording
      completion it is present exactly when completed and names the accepter. */
  predicate Consistent(v: Variant, t: Task) {
    && t.status.Some?
    && (t.acceptedBy.Some? <==> t.status != Some(Open))
    && (t.acceptedAt.Some? <==> t.status != Some(Open))
    && (t.completedAt.Some? <==> t.status == Some(Completed))
    && (match v
        case AsWritten => t.completedBy.None?
        case RecordingCompleter =>
          (t.completedBy.Some? <==> t.status == Some(Completed))
          && (t.completedBy.Some? ==> t.completedBy == t.acceptedBy))
  }

  predicate AllConsistent(v: Variant, s: Store) {
    forall k :: k in s ==> Consistent(v, s[k])
  }

  /** Position of a status along open -> accepted -> completed. */
  function Rank(st: Option<Status>): nat {
    match st
    case None => 0
    case Some(Open) => 0
    case Some(Accepted) => 1
    case Some(Completed) => 2
  }

  /** One transition: the status stays, or takes exactly one step forward. */
  predicate Edge(a: Task, b: Task) {
    || b.status == a.status
    || (a.status == Some(Open) && b.status == Some(Accepted))
    || (a.status == Some(Accepted) && b.status == Some(Completed))
  }

  /** Every item present before and after took at most one forward step and
      kept its posting fields. */
  predicate Stepped(s: Store, s': Store) {
    forall k :: k in s && k in s' ==> Edge(s[k], s'[k]) && SamePosting(s[k], s'[k])
  }

  /** Every item present at both ends is at least as far along and kept its posting fields. */
  predicate NotBehind(s: Store, s': Store) {
    forall k :: k in s && k in s' ==> Rank(s[k].status) <= Rank(s'[k].status) && SamePosting(s[k], s'[k])
  }

  /** The ids the create calls of `ops` put items under, in order. */
  function CreatedIds(ops: seq<Op>): seq<TaskId>
    decreases |ops|
  {
    if ops == [] then []
    else (if ops[0].Create? then [ops[0].id] else []) + CreatedIds(ops[1..])
  }

  /** The fresh-id supply never repeats an id and never hands out one in use. */
  predicate FreshCreates(s: Store, ops: seq<Op>) {
    NoDup(CreatedIds(ops)) && forall i :: 0 <= i < |CreatedIds(ops)| ==> CreatedIds(ops)[i] !in s
  }

  /** Every call keeps every item consistent. */
  lemma ApplyKeepsConsistent(v: Variant, s: Store, op: Op)
    requires AllConsistent(v, s)
    ensures AllConsistent(v, Apply(v, s, op))
  {
    var s' := Apply(v, s, op);
    forall k | k in s'
      ensures Consistent(v, s'[k])
    {
      if op.Create? && k == op.id {
        assert s'[k] == Posted(op.caller, op.draft, op.id, op.now);
      }
    }
  }

  lemma {:induction false} RunKeepsConsistent(v: Variant, s: Store, ops: seq<Op>)
    requires AllConsistent(v, s)
    ensures AllConsistent(v, Run(v, s, ops))
    decreases |ops|
  {
    if ops != [] {
      ApplyKeepsConsistent(v, s, ops[0]);
      RunKeepsConsistent(v, Apply(v, s, ops[0]), ops[1..]);
    }
  }

  /** Each call moves each surviving item by at most one forward edge,
      provided a create does not reuse an id already in the table. */
  lemma ApplySteps(v: Variant, s: Store, op: Op)
    requires op.Create? ==> op.id !in s
    ensures Stepped(s, Apply(v, s, op))
  {
  }

  lemma {:induction false} AbsentStaysAbsent(v: Variant, s: Store, ops: seq<Op>, k: TaskId)
    requires k !in s && k !in CreatedIds(ops)
    ensures k !in Run(v, s, ops)
    decreases |ops|
  {
    if ops != [] {
      ApplyKeys(v, s, ops[0]);
      assert CreatedIds(ops) == (if ops[0].Create? then [ops[0].id] else []) + CreatedIds(ops[1..]);
      AbsentStaysAbsent(v, Apply(v, s, ops[0]), ops[1..], k);
    }
  }

  /** A call adds no key other than a create's id. */
  lemma ApplyKeys(v: Variant, s: Store, op: Op)
    ensures Apply(v, s, op).Keys <= s.Keys + (if op.Create? then {op.id} else {})
  {
  }

  /** Over any sequence of calls with fresh create ids, a task that exists at
      both ends has not gone back: open -> accepted -> completed only. */
  lemma {:induction false} RunNeverGoesBack(v: Variant, s: Store, ops: seq<Op>)
    requires FreshCreates(s, ops)
    ensures NotBehind(s, Run(v, s, ops))
    decreases |ops|
  {
    if ops != [] {
      var op := ops[0];
      var s1 := Apply(v, s, op);
      var rest := ops[1..];
      var created := (if op.Create? then [op.id] else []);
      assert CreatedIds(ops) == created + CreatedIds(rest);
      assert op.Create? ==> CreatedIds(ops)[0] == op.id;
      ApplySteps(v, s, op);
      ApplyKeys(v, s, op);
      forall i | 0 <= i < |CreatedIds(rest)|
        ensures CreatedIds(rest)[i] !in s1
      {
        assert CreatedIds(rest)[i] == CreatedIds(ops)[|created| + i];
        if op.Create? {
          assert CreatedIds(ops)[0] != CreatedIds(ops)[1 + i];
        }
      }
      assert NoDup(CreatedIds(rest)) by {
        forall i, j | 0 <= i < j < |CreatedIds(rest)|
          ensures CreatedIds(rest)[i] != CreatedIds(rest)[j]
        {
          assert CreatedIds(rest)[i] == CreatedIds(ops)[|created| + i];
          assert CreatedIds(rest)[j] == CreatedIds(ops)[|created| + j];
        }
      }
      RunNeverGoesBack(v, s1, rest);
      var fin := Run(v, s1, rest);
      forall k | k in s && k in fin
        ensures Rank(s[k].status) <= Rank(fin[k].status) && SamePosting(s[k], fin[k])
      {
        if k !in s1 {
          forall i | 0 <= i < |CreatedIds(rest)|
            ensures CreatedIds(rest)[i] != k
          {
            assert CreatedIds(rest)[i] == CreatedIds(ops)[|created| + i];
          }
          AbsentStaysAbsent(v, s1, rest, k);
        }
      }
    }
  }
}
