/** The task listings: all tasks, "my posted" and "my accepted", each a
    filtered full scan sorted by `timestamp`, newest first, then serialized. */
module TaskListing {
  import opened Base
  import opened Tasks
  import opened Scan

  predicate NewestFirst(s: seq<Task>) {
    forall i, j :: 0 <= i < j < |s| ==> s[i].timestamp >= s[j].timestamp
  }

  /** Places `t` before the first item that is not strictly newer than it. */
  function Insert(t: Task, s: seq<Task>): (r: seq<Task>)
    requires NewestFirst(s)
    ensures |r| == |s| + 1
    ensures r[0] == t || (s != [] && r[0] == s[0])
    ensures NewestFirst(r)
    ensures multiset(r) == multiset(s) + multiset{t}
  {
    if s == [] || s[0].timestamp <= t.timestamp then [t] + s
    else
      assert s == [s[0]] + s[1..];
      [s[0]] + Insert(t, s[1..])
  }

  /** `sorted(items, key=timestamp, reverse=True)`: the same items, newest
      first. The order among items with equal timestamps is not stated. */
  function SortNewestFirst(s: seq<Task>): (r: seq<Task>)
    ensures NewestFirst(r)
    ensures multiset(r) == multiset(s)
  {
    if s == [] then []
    else
      assert s == [s[0]] + s[1..];
      Insert(s[0], SortNewestFirst(s[1..]))
  }

  predicate ViewsNewestFirst(r: seq<TaskView>) {
    forall i, j :: 0 <= i < j < |r| ==> r[i].timestamp >= r[j].timestamp
  }

  function Views(s: seq<Task>): (r: seq<TaskView>)
    requires NewestFirst(s)
    ensures |r| == |s|
    ensures forall i :: 0 <= i < |s| ==> r[i] == Serialize(s[i])
    ensures ViewsNewestFirst(r)
  {
    seq(|s|, i requires 0 <= i < |s| => Serialize(s[i]))
  }

  /** The tasks a listing returns, before serialization: the scanned items
      that satisfy `keep`, newest first. */
  function Select(tasks: Store, scan: seq<TaskId>, keep: Task -> bool): (r: seq<Task>)
    requires IsScanOf(scan, tasks)
    ensures NewestFirst(r)
    ensures forall t :: t in r <==> t in tasks.Values && keep(t)
    ensures multiset(r) == multiset(Filter(Rows(scan, tasks), keep))
    ensures forall i :: 0 <= i < |r| ==> keep(r[i])
    ensures |r| == |KeysWhere(tasks, keep)|
    ensures forall t :: multiset(r)[t] == if keep(t) then |KeysHolding(tasks, t)| else 0
  {
    RowsAreValues(scan, tasks);
    FilterRowsCount(scan, tasks, keep);
    FilterRowsMultiplicity(scan, tasks, keep);
    var f := Filter(Rows(scan, tasks), keep);
    var r := SortNewestFirst(f);
    SameItems(f, r);
    r
  }

  /** `get_all_tasks`: every stored task once, newest first. */
  function GetAllTasks(tasks: Store, scan: seq<TaskId>): (r: seq<TaskView>)
    requires IsScanOf(scan, tasks)
    ensures |r| == |tasks|
    ensures ViewsNewestFirst(r)
    ensures forall k :: k in tasks ==> Serialize(tasks[k]) in r
  {
    var keep := (t: Task) => true;
    var s := Select(tasks, scan, keep);
    KeysWhereIs(tasks, keep, tasks.Keys);
    var r := Views(s);
    assert forall k :: k in tasks ==> tasks[k] in s;
    r
  }

  /** `get_my_posted_tasks`: the caller's own postings, newest first. */
  function GetMyPostedTasks(tasks: Store, scan: seq<TaskId>, caller: UserId): (r: seq<TaskView>)
    requires IsScanOf(scan, tasks)
    ensures ViewsNewestFirst(r)
    ensures forall i :: 0 <= i < |r| ==> r[i].postedBy == caller
    ensures |r| == |set k | k in tasks && tasks[k].postedBy == caller|
  {
    var keep := (t: Task) => t.postedBy == caller;
    var s := Select(tasks, scan, keep);
    KeysWhereIs(tasks, keep, set k | k in tasks && tasks[k].postedBy == caller);
    Views(s)
  }

  /** `get_my_accepted_tasks`: the tasks whose `accepted_by` is the caller,
      whatever their status, newest first. */
  function GetMyAcceptedTasks(tasks: Store, scan: seq<TaskId>, caller: UserId): (r: seq<TaskView>)
    requires IsScanOf(scan, tasks)
    ensures ViewsNewestFirst(r)
    ensures forall i :: 0 <= i < |r| ==> r[i].acceptedBy == Some(caller)
    ensures |r| == |set k | k in tasks && tasks[k].acceptedBy == Some(caller)|
  {
    var keep := (t: Task) => t.acceptedBy == Some(caller);
    var s := Select(tasks, scan, keep);
    KeysWhereIs(tasks, keep, set k | k in tasks && tasks[k].acceptedBy == Some(caller));
    Views(s)
  }

  /** Two orderings of the same items have the same length and members, and
      whatever holds of every member holds at every index. */
  lemma SameItems(a: seq<Task>, b: seq<Task>)
    requires multiset(a) == multiset(b)
    ensures |a| == |b|
    ensures forall t :: t in a <==> t in b
    ensures forall i :: 0 <= i < |b| ==> b[i] in a
  {
    assert |a| == |multiset(a)| == |multiset(b)| == |b|;
    assert forall t :: t in a <==> t in multiset(a);
    assert forall t :: t in b <==> t in multiset(b);
  }

  lemma ViewOfMember(s: seq<Task>, t: Task)
    requires NewestFirst(s) && t in s
    ensures Serialize(t) in Views(s)
  {
    var i :| 0 <= i < |s| && s[i] == t;
    assert Views(s)[i] == Serialize(t);
  }

  /** A stored task is in "my posted" exactly when the caller posted it. */
  lemma MyPostedExact(tasks: Store, scan: seq<TaskId>, caller: UserId, k: TaskId)
    requires IsScanOf(scan, tasks) && k in tasks
    ensures Serialize(tasks[k]) in GetMyPostedTasks(tasks, scan, caller) <==> tasks[k].postedBy == caller
  {
    if tasks[k].postedBy == caller {
      ViewOfMember(Select(tasks, scan, (t: Task) => t.postedBy == caller), tasks[k]);
    }
  }

  /** A stored task is in "my accepted" exactly when the caller accepted it. */
  lemma MyAcceptedExact(tasks: Store, scan: seq<TaskId>, caller: UserId, k: TaskId)
    requires IsScanOf(scan, tasks) && k in tasks
    ensures Serialize(tasks[k]) in GetMyAcceptedTasks(tasks, scan, caller) <==> tasks[k].acceptedBy == Some(caller)
  {
    if tasks[k].acceptedBy == Some(caller) {
      ViewOfMember(Select(tasks, scan, (t: Task) => t.acceptedBy == Some(caller)), tasks[k]);
    }
  }

  /** Completing a task keeps it in its accepter's "my accepted" list. */
  lemma CompletedStaysAccepted(tasks: Store, caller: UserId, id: TaskId, now: Time, scan: seq<TaskId>)
    requires CompleteTask(tasks, caller, id, now).Ok?
    requires IsScanOf(scan, CompleteTask(tasks, caller, id, now).value.store)
    ensures CompleteTask(tasks, caller, id, now).value.body
              in GetMyAcceptedTasks(CompleteTask(tasks, caller, id, now).value.store, scan, caller)
  {
    var s := CompleteTask(tasks, caller, id, now).value.store;
    MyAcceptedExact(s, scan, caller, id);
  }

  lemma {:induction false} FilterAll(s: seq<Task>)
    ensures Filter(s, _ => true) == s
  {
    if s != [] {
      FilterAll(s[1..]);
      assert s == [s[0]] + s[1..];
    }
  }
}
